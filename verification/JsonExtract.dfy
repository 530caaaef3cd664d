/**
 Pulling a JSON object out of free text: fences are removed, then the text is
 scanned from its first `{` while braces are counted outside strings.

 The scanner is judged against a grammar of brace blocks that knows nothing of
 depth counters: a block is a body between braces, and a body is a run of plain
 characters, string literals and nested blocks.
 */
module JsonExtract {
  import opened Options

  // ---------------------------------------------------------------------
  // Removing code fences
  // ---------------------------------------------------------------------

  predicate StartsWithFence(s: string) {
    |s| >= 3 && s[0] == '`' && s[1] == '`' && s[2] == '`'
  }

  /** "```json" in any letter case; the longer alternative is tried first. */
  predicate StartsWithJsonFence(s: string) {
    && StartsWithFence(s)
    && |s| >= 7
    && s[3] in "jJ" && s[4] in "sS" && s[5] in "oO" && s[6] in "nN"
  }

  function StripFences(s: string): string
  {
    if s == "" then ""
    else if StartsWithJsonFence(s) then StripFences(s[7..])
    else if StartsWithFence(s) then StripFences(s[3..])
    else [s[0]] + StripFences(s[1..])
  }

  ghost predicate HasFence(s: string) {
    exists i :: 0 <= i <= |s| && StartsWithFence(s[i..])
  }

  // ---------------------------------------------------------------------
  // The scanner
  // ---------------------------------------------------------------------

  datatype Scan = Scan(depth: int, inString: bool, escaped: bool)

  function Step(st: Scan, ch: char): Scan {
    if st.inString then
      if st.escaped then st.(escaped := false)
      else if ch == '\\' then st.(escaped := true)
      else if ch == '"' then st.(inString := false)
      else st
    else if ch == '"' then st.(inString := true)
    else if ch == '{' then st.(depth := st.depth + 1)
    else if ch == '}' then st.(depth := st.depth - 1)
    else st
  }

  predicate Closes(st: Scan, ch: char) {
    !st.inString && ch == '}' && st.depth == 1
  }

  function Plus(n: nat, r: Option<nat>): Option<nat> {
    match r
    case None => None
    case Some(m) => Some(n + m)
  }

  /** How many characters of `s` are consumed up to and including the closing brace. */
  function Close(s: string, st: Scan): Option<nat>
  {
    if s == "" then None
    else if Closes(st, s[0]) then Some(1)
    else Plus(1, Close(s[1..], Step(st, s[0])))
  }

  function IndexOf(s: string, ch: char): (i: nat)
    ensures i <= |s|
    ensures i < |s| ==> s[i] == ch
    ensures forall j | 0 <= j < i :: s[j] != ch
  {
    if s == "" || s[0] == ch then 0 else 1 + IndexOf(s[1..], ch)
  }

  function Extract(raw: string): Option<string> {
    var text := StripFences(raw);
    var start := IndexOf(text, '{');
    if start == |text| then None
    else match Close(text[start..], Scan(0, false, false))
      case None => None
      case Some(n) =>
        CloseInRange(text[start..], Scan(0, false, false));
        Some(text[start..start + n])
  }

  lemma CloseInRange(s: string, st: Scan)
    ensures Close(s, st).Some? ==> 0 < Close(s, st).value <= |s|
  {
  }

  /** The loop of the original, proved to compute `Extract`. */
  method ExtractJsonObject(raw: string) returns (r: Option<string>)
    ensures r == Extract(raw)
  {
    var text := StripFences(raw);
    var start := IndexOf(text, '{');
    if start == |text| {
      return None;
    }
    var depth, inString, escaped := 0, false, false;
    var i := start;
    while i < |text|
      invariant start <= i <= |text|
      invariant Close(text[start..], Scan(0, false, false))
             == Plus(i - start, Close(text[i..], Scan(depth, inString, escaped)))
    {
      var ch := text[i];
      assert text[i..][1..] == text[i + 1..];
      if inString {
        if escaped {
          escaped := false;
        } else if ch == '\\' {
          escaped := true;
        } else if ch == '"' {
          inString := false;
        }
      } else if ch == '"' {
        inString := true;
      } else if ch == '{' {
        depth := depth + 1;
      } else if ch == '}' {
        depth := depth - 1;
        if depth == 0 {
          return Some(text[start..i + 1]);
        }
      }
      i := i + 1;
    }
    return None;
  }

  // ---------------------------------------------------------------------
  // The grammar of blocks
  // ---------------------------------------------------------------------

  datatype Piece = Raw(c: char) | Escape(c: char)

  datatype Body =
    | End
    | Plain(c: char, rest: Body)
    | Quoted(pieces: seq<Piece>, rest: Body)
    | Nested(inner: Body, rest: Body)

  predicate GoodPiece(p: Piece) {
    p.Raw? ==> p.c != '"' && p.c != '\\'
  }

  predicate GoodBody(b: Body) {
    match b
    case End => true
    case Plain(c, rest) => c !in "{}\"" && GoodBody(rest)
    case Quoted(pieces, rest) => (forall p <- pieces :: GoodPiece(p)) && GoodBody(rest)
    case Nested(inner, rest) => GoodBody(inner) && GoodBody(rest)
  }

  function PiecesText(ps: seq<Piece>): string {
    if ps == [] then ""
    else (if ps[0].Raw? then [ps[0].c] else ['\\', ps[0].c]) + PiecesText(ps[1..])
  }

  function BodyText(b: Body): string {
    match b
    case End => ""
    case Plain(c, rest) => [c] + BodyText(rest)
    case Quoted(pieces, rest) => "\"" + PiecesText(pieces) + "\"" + BodyText(rest)
    case Nested(inner, rest) => "{" + BodyText(inner) + "}" + BodyText(rest)
  }

  function BlockText(b: Body): string {
    "{" + BodyText(b) + "}"
  }

  ghost predicate IsBlock(t: string) {
    exists b :: GoodBody(b) && t == BlockText(b)
  }

  // ---------------------------------------------------------------------
  // Soundness of the scanner: it walks over a body without closing
  // ---------------------------------------------------------------------

  lemma CloseStep(ch: char, s: string, st: Scan)
    ensures Close([ch] + s, st) == if Closes(st, ch) then Some(1) else Plus(1, Close(s, Step(st, ch)))
  {
    assert ([ch] + s)[1..] == s;
  }

  lemma {:induction false} ScanPieces(ps: seq<Piece>, d: int, s: string)
    requires forall p <- ps :: GoodPiece(p)
    ensures Close(PiecesText(ps) + "\"" + s, Scan(d, true, false))
         == Plus(|PiecesText(ps)| + 1, Close(s, Scan(d, false, false)))
  {
    var t := PiecesText(ps) + "\"" + s;
    if ps == [] {
      assert t == ['"'] + s;
      CloseStep('"', s, Scan(d, true, false));
    } else {
      var rest := PiecesText(ps[1..]) + "\"" + s;
      ScanPieces(ps[1..], d, s);
      assert GoodPiece(ps[0]);
      if ps[0].Raw? {
        assert t == [ps[0].c] + rest;
        CloseStep(ps[0].c, rest, Scan(d, true, false));
      } else {
        assert t == ['\\'] + ([ps[0].c] + rest);
        CloseStep('\\', [ps[0].c] + rest, Scan(d, true, false));
        CloseStep(ps[0].c, rest, Scan(d, true, true));
      }
    }
  }

  lemma ScanQuoted(ps: seq<Piece>, d: int, s: string)
    requires forall p <- ps :: GoodPiece(p)
    ensures Close("\"" + PiecesText(ps) + "\"" + s, Scan(d, false, false))
         == Plus(|PiecesText(ps)| + 2, Close(s, Scan(d, false, false)))
  {
    ScanPieces(ps, d, s);
    var rest := PiecesText(ps) + "\"" + s;
    CloseStep('"', rest, Scan(d, false, false));
    assert "\"" + PiecesText(ps) + "\"" + s == ['"'] + rest;
  }

  lemma {:induction false} ScanBody(b: Body, d: int, s: string)
    requires GoodBody(b) && d >= 1
    ensures Close(BodyText(b) + s, Scan(d, false, false))
         == Plus(|BodyText(b)|, Close(s, Scan(d, false, false)))
    decreases b, 1
  {
    match b
    case End =>
      assert BodyText(b) + s == s;
    case Plain(c, rest) =>
      var t := BodyText(rest) + s;
      ScanBody(rest, d, s);
      CloseStep(c, t, Scan(d, false, false));
      assert BodyText(b) + s == [c] + t;
    case Quoted(pieces, rest) =>
      var t := BodyText(rest) + s;
      ScanBody(rest, d, s);
      ScanQuoted(pieces, d, t);
      var q := "\"" + PiecesText(pieces) + "\"";
      Assoc(q, BodyText(rest), s);
    case Nested(inner, rest) =>
      var t := BodyText(rest) + s;
      ScanBody(rest, d, s);
      ScanNested(inner, d, t);
      var q := "{" + BodyText(inner) + "}";
      Assoc(q, BodyText(rest), s);
  }

  lemma Assoc(a: string, b: string, c: string)
    ensures (a + b) + c == a + (b + c)
  {
  }

  lemma {:induction false} ScanNested(inner: Body, d: int, v: string)
    requires GoodBody(inner) && d >= 1
    ensures Close("{" + BodyText(inner) + "}" + v, Scan(d, false, false))
         == Plus(|BodyText(inner)| + 2, Close(v, Scan(d, false, false)))
    decreases inner, 2
  {
    var u := "}" + v;
    ScanBody(inner, d + 1, u);
    BracesClose(BodyText(inner), d, v);
  }

  lemma {:induction false} BracesClose(x: string, d: int, v: string)
    requires d >= 1
    requires Close(x + ("}" + v), Scan(d + 1, false, false)) == Plus(|x|, Close("}" + v, Scan(d + 1, false, false)))
    ensures Close("{" + x + "}" + v, Scan(d, false, false)) == Plus(|x| + 2, Close(v, Scan(d, false, false)))
  {
    OpenBrace(x + ("}" + v), d);
    CloseBrace(v, d);
    BracesText(x, v);
    PlusPlus(1, |x|, Close("}" + v, Scan(d + 1, false, false)));
    PlusPlus(1 + |x|, 1, Close(v, Scan(d, false, false)));
  }

  lemma OpenBrace(w: string, d: int)
    ensures Close("{" + w, Scan(d, false, false)) == Plus(1, Close(w, Scan(d + 1, false, false)))
  {
    CloseStep('{', w, Scan(d, false, false));
  }

  lemma CloseBrace(v: string, d: int)
    requires d >= 1
    ensures Close("}" + v, Scan(d + 1, false, false)) == Plus(1, Close(v, Scan(d, false, false)))
  {
    CloseStep('}', v, Scan(d + 1, false, false));
  }

  lemma PlusPlus(m: nat, n: nat, r: Option<nat>)
    ensures Plus(m, Plus(n, r)) == Plus(m + n, r)
  {
  }

  lemma BracesText(x: string, v: string)
    ensures "{" + x + "}" + v == "{" + (x + ("}" + v))
  {
  }

  lemma ScanBlock(b: Body, s: string)
    requires GoodBody(b)
    ensures Close(BlockText(b) + s, Scan(0, false, false)) == Some(|BlockText(b)|)
  {
    var x := BodyText(b);
    BracesText(x, s);
    OpenBrace(x + ("}" + s), 0);
    ScanBody(b, 1, "}" + s);
    CloseStep('}', s, Scan(1, false, false));
  }

  // ---------------------------------------------------------------------
  // Completeness of the scanner: whatever it closes is a block
  // ---------------------------------------------------------------------

  /** What a parse of a string after its opening quote must deliver. */
  ghost predicate ParsedPieces(s: string, d: int, ps: seq<Piece>, k: nat) {
    && (forall p <- ps :: GoodPiece(p))
    && 0 < k <= |s| && s[..k] == PiecesText(ps) + "\""
    && Close(s, Scan(d, true, false)) == Plus(k, Close(s[k..], Scan(d, false, false)))
  }

  lemma {:induction false} ParsePieces(s: string, d: int) returns (ps: seq<Piece>, k: nat)
    requires Close(s, Scan(d, true, false)).Some?
    ensures ParsedPieces(s, d, ps, k)
    decreases |s|
  {
    if s[0] == '"' {
      ps, k := [], 1;
    } else if s[0] == '\\' {
      CloseTail(s, Scan(d, true, false));
      CloseTail(s[1..], Scan(d, true, true));
      assert s[1..][1..] == s[2..];
      var ps', k' := ParsePieces(s[2..], d);
      ps, k := [Escape(s[1])] + ps', k' + 2;
      PlusPlus(1, 1, Close(s[2..], Scan(d, true, false)));
      ParsedEscape(s, d, ps', k');
    } else {
      CloseTail(s, Scan(d, true, false));
      var ps', k' := ParsePieces(s[1..], d);
      ps, k := [Raw(s[0])] + ps', k' + 1;
      ParsedRaw(s, d, ps', k');
    }
  }

  lemma ParsedEscape(s: string, d: int, ps: seq<Piece>, k: nat)
    requires |s| >= 2 && s[0] == '\\' && ParsedPieces(s[2..], d, ps, k)
    requires Close(s, Scan(d, true, false)) == Plus(2, Close(s[2..], Scan(d, true, false)))
    ensures ParsedPieces(s, d, [Escape(s[1])] + ps, k + 2)
  {
    EscapeText(s, PiecesText(ps), k);
    PiecesStep(Escape(s[1]), ps);
    PlusPlus(2, k, Close(s[k + 2..], Scan(d, false, false)));
  }

  lemma EscapeText(s: string, x: string, k: nat)
    requires |s| >= 2 && k <= |s| - 2 && s[2..][..k] == x + "\""
    ensures s[..k + 2] == [s[0], s[1]] + x + "\"" && s[2..][k..] == s[k + 2..]
  {
    assert s[..k + 2] == [s[0], s[1]] + s[2..][..k];
  }

  lemma RawText(s: string, x: string, k: nat)
    requires |s| >= 1 && k <= |s| - 1 && s[1..][..k] == x + "\""
    ensures s[..k + 1] == [s[0]] + x + "\"" && s[1..][k..] == s[k + 1..]
  {
    assert s[..k + 1] == [s[0]] + s[1..][..k];
  }

  lemma PiecesStep(p: Piece, ps: seq<Piece>)
    ensures PiecesText([p] + ps) == (if p.Raw? then [p.c] else ['\\', p.c]) + PiecesText(ps)
  {
    assert ([p] + ps)[1..] == ps;
  }

  lemma ParsedRaw(s: string, d: int, ps: seq<Piece>, k: nat)
    requires s != "" && s[0] != '"' && s[0] != '\\' && ParsedPieces(s[1..], d, ps, k)
    requires Close(s, Scan(d, true, false)) == Plus(1, Close(s[1..], Scan(d, true, false)))
    ensures ParsedPieces(s, d, [Raw(s[0])] + ps, k + 1)
  {
    RawText(s, PiecesText(ps), k);
    PiecesStep(Raw(s[0]), ps);
  }

  /** What a parse of a body up to its closing brace must deliver. */
  ghost predicate Parsed(s: string, d: int, b: Body, m: nat) {
    && GoodBody(b) && 0 < m <= |s| && s[..m] == BodyText(b) + "}"
    && Close(s, Scan(d, false, false))
       == if d == 1 then Some(m) else Plus(m, Close(s[m..], Scan(d - 1, false, false)))
  }

  /** Scanning on from the first character, when it does not close the text. */
  lemma CloseTail(s: string, st: Scan)
    requires Close(s, st).Some? && !Closes(st, s[0])
    ensures Close(s[1..], Step(st, s[0])).Some?
    ensures Close(s, st) == Plus(1, Close(s[1..], Step(st, s[0])))
  {
  }

  lemma {:induction false} ParseBody(s: string, d: int) returns (b: Body, m: nat)
    requires d >= 1 && Close(s, Scan(d, false, false)).Some?
    ensures Parsed(s, d, b, m)
    decreases |s|, 1
  {
    if s[0] == '}' {
      b, m := End, 1;
    } else if s[0] == '"' {
      b, m := ParseQuoted(s, d);
    } else if s[0] == '{' {
      b, m := ParseNested(s, d);
    } else {
      CloseTail(s, Scan(d, false, false));
      var b', m' := ParseBody(s[1..], d);
      b, m := Plain(s[0], b'), 1 + m';
      ParsedPlain(s, d, b', m');
    }
  }

  lemma {:induction false} ParseQuoted(s: string, d: int) returns (b: Body, m: nat)
    requires d >= 1 && Close(s, Scan(d, false, false)).Some? && s[0] == '"'
    ensures Parsed(s, d, b, m)
    decreases |s|, 0
  {
    CloseTail(s, Scan(d, false, false));
    var ps, k := ParsePieces(s[1..], d);
    var b', m' := ParseBody(s[1..][k..], d);
    b, m := Quoted(ps, b'), 1 + k + m';
    ParsedQuoted(s, d, ps, k, b', m');
  }

  lemma {:induction false} ParseNested(s: string, d: int) returns (b: Body, m: nat)
    requires d >= 1 && Close(s, Scan(d, false, false)).Some? && s[0] == '{'
    ensures Parsed(s, d, b, m)
    decreases |s|, 0
  {
    CloseTail(s, Scan(d, false, false));
    var b1, m1 := ParseBody(s[1..], d + 1);
    var b2, m2 := ParseBody(s[1..][m1..], d);
    b, m := Nested(b1, b2), 1 + m1 + m2;
    ParsedNested(s, d, b1, m1, b2, m2);
  }

  /** Cutting a text after its first character, then after `i`, then after `j` more. */
  lemma Cut(s: string, i: nat, j: nat)
    requires 1 + i + j <= |s|
    ensures s[..1 + i + j] == [s[0]] + (s[1..][..i] + s[1..][i..][..j])
    ensures s[1..][i..][j..] == s[1 + i + j..]
  {
  }

  lemma ParsedQuoted(s: string, d: int, ps: seq<Piece>, k: nat, b: Body, m: nat)
    requires d >= 1 && s != "" && s[0] == '"' && 0 < k <= |s[1..]|
    requires (forall p <- ps :: GoodPiece(p)) && s[1..][..k] == PiecesText(ps) + "\""
    requires Close(s[1..], Scan(d, true, false)) == Plus(k, Close(s[1..][k..], Scan(d, false, false)))
    requires Parsed(s[1..][k..], d, b, m)
    ensures Parsed(s, d, Quoted(ps, b), 1 + k + m)
  {
    QuotedText(s, PiecesText(ps), BodyText(b), k, m);
    QuoteOpens(s, d, k);
    var u := s[1..][k..];
    CloseFrom(d, 1 + k, m, Close(s, Scan(d, false, false)), Close(u, Scan(d, false, false)),
              Close(u[m..], Scan(d - 1, false, false)));
  }

  /** `n` characters before a body of which `m` are consumed: what is found after them counts from the start. */
  lemma CloseFrom(d: int, n: nat, m: nat, whole: Option<nat>, body: Option<nat>, tail: Option<nat>)
    requires whole == Plus(n, body) && body == if d == 1 then Some(m) else Plus(m, tail)
    ensures whole == if d == 1 then Some(n + m) else Plus(n + m, tail)
  {
  }

  lemma QuotedText(s: string, x: string, y: string, k: nat, m: nat)
    requires s != "" && s[0] == '"' && k <= |s[1..]| && m <= |s[1..][k..]|
    requires s[1..][..k] == x + "\"" && s[1..][k..][..m] == y + "}"
    ensures s[..1 + k + m] == "\"" + x + "\"" + y + "}" && s[1..][k..][m..] == s[1 + k + m..]
  {
    Cut(s, k, m);
    Regroup('"', x, "\"", y, "}");
  }

  lemma QuoteOpens(s: string, d: int, k: nat)
    requires s != "" && s[0] == '"' && k <= |s[1..]|
    requires Close(s[1..], Scan(d, true, false)) == Plus(k, Close(s[1..][k..], Scan(d, false, false)))
    ensures Close(s, Scan(d, false, false)) == Plus(1 + k, Close(s[1..][k..], Scan(d, false, false)))
  {
  }

  lemma Regroup(c: char, x: string, p: string, y: string, q: string)
    ensures [c] + ((x + p) + (y + q)) == [c] + x + p + y + q
  {
  }

  lemma ParsedNested(s: string, d: int, b1: Body, m1: nat, b2: Body, m2: nat)
    requires d >= 1 && s != "" && s[0] == '{'
    requires Parsed(s[1..], d + 1, b1, m1) && Parsed(s[1..][m1..], d, b2, m2)
    ensures Parsed(s, d, Nested(b1, b2), 1 + m1 + m2)
  {
    NestedText(s, BodyText(b1), BodyText(b2), m1, m2);
  }

  lemma NestedText(s: string, x: string, y: string, m1: nat, m2: nat)
    requires s != "" && s[0] == '{' && m1 <= |s[1..]| && m2 <= |s[1..][m1..]|
    requires s[1..][..m1] == x + "}" && s[1..][m1..][..m2] == y + "}"
    ensures s[..1 + m1 + m2] == "{" + x + "}" + y + "}" && s[1..][m1..][m2..] == s[1 + m1 + m2..]
  {
    Cut(s, m1, m2);
    Regroup('{', x, "}", y, "}");
  }

  lemma ParsedPlain(s: string, d: int, b: Body, m: nat)
    requires d >= 1 && s != "" && s[0] !in "{}\""
    requires Parsed(s[1..], d, b, m)
    ensures Parsed(s, d, Plain(s[0], b), 1 + m)
  {
    assert s[1..][m..] == s[1 + m..];
    assert s[..1 + m] == [s[0]] + s[1..][..m];
    assert s[..1 + m] == BodyText(Plain(s[0], b)) + "}";
  }

  /** The scanner closes a text exactly at its block prefix, which is unique. */
  lemma {:induction false} CloseIffBlock(s: string, n: nat)
    requires s != "" && s[0] == '{' && n <= |s|
    ensures Close(s, Scan(0, false, false)) == Some(n) <==> IsBlock(s[..n])
  {
    if Close(s, Scan(0, false, false)) == Some(n) {
      var b, m := ParseBody(s[1..], 1);
      assert s[..n] == [s[0]] + s[1..][..m];
      assert s[..n] == BlockText(b);
    }
    if IsBlock(s[..n]) {
      var b :| GoodBody(b) && s[..n] == BlockText(b);
      ScanBlock(b, s[n..]);
      assert s == s[..n] + s[n..];
    }
  }

  /**
   The answer of the extraction, without reference to the scanner: the block
   that starts at the first `{` of the fence-free text, if there is one.
   */
  lemma ExtractIsFirstBlock(raw: string, t: string)
    ensures var text := StripFences(raw); var start := IndexOf(text, '{');
            Extract(raw) == Some(t) <==> start < |text| && t <= text[start..] && IsBlock(t)
  {
    var text := StripFences(raw);
    var start := IndexOf(text, '{');
    if start < |text| {
      PrefixIsBlockIff(text[start..], t);
      ExtractIsPrefix(raw, t);
    }
  }

  lemma ExtractIsPrefix(raw: string, t: string)
    requires var text := StripFences(raw); IndexOf(text, '{') < |text|
    ensures var text := StripFences(raw); var s := text[IndexOf(text, '{')..];
            Extract(raw) == Some(t) <==> |t| <= |s| && t == s[..|t|] && Close(s, Scan(0, false, false)) == Some(|t|)
  {
    var text := StripFences(raw);
    var start := IndexOf(text, '{');
    var s := text[start..];
    CloseInRange(s, Scan(0, false, false));
    var closed := Close(s, Scan(0, false, false));
    if closed.Some? {
      Slices(text, start, closed.value);
      assert Extract(raw) == Some(s[..closed.value]);
    }
  }

  lemma PrefixIsBlockIff(s: string, t: string)
    requires s != "" && s[0] == '{'
    ensures t <= s && IsBlock(t) <==> |t| <= |s| && t == s[..|t|] && Close(s, Scan(0, false, false)) == Some(|t|)
  {
    if |t| <= |s| {
      CloseIffBlock(s, |t|);
    }
    if t <= s {
      assert s[..|t|] == t;
    }
  }

  lemma Slices(text: string, start: nat, n: nat)
    requires start + n <= |text|
    ensures text[start..][..n] == text[start..start + n]
  {
  }

  /** Null is the answer exactly when no prefix from the first `{` is a block. */
  lemma ExtractNoneIff(raw: string)
    ensures var text := StripFences(raw); var start := IndexOf(text, '{');
            Extract(raw) == None <==> forall n | start < n <= |text| :: !IsBlock(text[start..n])
  {
    var text := StripFences(raw);
    var start := IndexOf(text, '{');
    forall n | start < n <= |text| && IsBlock(text[start..n])
      ensures Extract(raw).Some?
    {
      assert text[start..n] <= text[start..];
      ExtractIsFirstBlock(raw, text[start..n]);
    }
    if t: string :| Extract(raw) == Some(t) {
      ExtractIsFirstBlock(raw, t);
      assert t == text[start..start + |t|];
      var b :| GoodBody(b) && t == BlockText(b);
    }
  }

  /** Of two blocks that start at the same place neither is longer. */
  lemma BlocksArePrefixFree(s: string, t: string)
    requires IsBlock(s) && IsBlock(t) && t <= s
    ensures s == t
  {
    var b :| GoodBody(b) && t == BlockText(b);
    ScanBlock(b, s[|t|..]);
    assert s == t + s[|t|..];
    CloseIffBlock(s, |s|);
    assert s[..|s|] == s;
  }

  // ---------------------------------------------------------------------
  // Fences and concatenation
  // ---------------------------------------------------------------------

  lemma SameFence(a: string, b: string)
    requires a != "" && (b != "" ==> b[0] !in "`jJsSoOnN")
    ensures StartsWithFence(a + b) == StartsWithFence(a)
    ensures StartsWithJsonFence(a + b) == StartsWithJsonFence(a)
  {
    var ab := a + b;
    assert forall i | 0 <= i < |a| :: ab[i] == a[i];
    assert |b| > 0 ==> ab[|a|] == b[0];
  }

  lemma {:induction false} StripAcross(a: string, b: string)
    requires b != "" ==> b[0] !in "`jJsSoOnN"
    ensures StripFences(a + b) == StripFences(a) + StripFences(b)
  {
    var ab := a + b;
    if a == "" {
      assert ab == b;
    } else {
      SameFence(a, b);
      var k := if StartsWithJsonFence(a) then 7 else if StartsWithFence(a) then 3 else 1;
      assert ab[k..] == a[k..] + b;
      StripAcross(a[k..], b);
    }
  }

  lemma NoFenceAcross(p: string, suffix: string)
    requires !HasFence(p) && p != "" && p[|p| - 1] == '}'
    ensures !StartsWithFence(p + suffix)
  {
    var t := p + suffix;
    assert p[0..] == p;
    assert !StartsWithFence(p);
    assert forall i | 0 <= i < |p| :: t[i] == p[i];
  }

  lemma {:induction false} StripKeeps(p: string, suffix: string)
    requires !HasFence(p) && (p != "" ==> p[|p| - 1] == '}')
    ensures StripFences(p + suffix) == p + StripFences(suffix)
  {
    var t := p + suffix;
    if p == "" {
      assert t == suffix;
    } else {
      NoFenceAcross(p, suffix);
      assert t[1..] == p[1..] + suffix;
      SuffixHasNoFence(p, 1);
      StripKeeps(p[1..], suffix);
    }
  }

  lemma SuffixHasNoFence(p: string, k: nat)
    requires !HasFence(p) && k <= |p|
    ensures !HasFence(p[k..])
  {
    forall i | 0 <= i <= |p[k..]|
      ensures !StartsWithFence(p[k..][i..])
    {
      assert p[k..][i..] == p[k + i..];
    }
  }

  lemma PrefixHasNoFence(p: string, k: nat)
    requires !HasFence(p) && k <= |p|
    ensures !HasFence(p[..k])
  {
    forall i | 0 <= i <= k
      ensures !StartsWithFence(p[..k][i..])
    {
      assert !StartsWithFence(p[i..]);
    }
  }

  /** What stands before the first fence is kept. */
  lemma {:induction false} KeepsUpTo(a: string, t: string)
    requires forall k | 0 <= k < |a| :: !StartsWithFence((a + t)[k..])
    ensures StripFences(a + t) == a + StripFences(t)
  {
    if a == "" {
      assert a + t == t;
    } else {
      var rest := a[1..] + t;
      assert (a + t)[0..] == a + t && (a + t)[1..] == rest;
      forall k | 0 <= k < |a[1..]|
        ensures !StartsWithFence(rest[k..])
      {
        assert rest[k..] == (a + t)[k + 1..];
      }
      KeepsUpTo(a[1..], t);
      assert a == [a[0]] + a[1..];
    }
  }

  /** A text without a fence stays as it is. */
  lemma NothingToStrip(s: string)
    requires !HasFence(s)
    ensures StripFences(s) == s
  {
    assert s + "" == s;
    KeepsUpTo(s, "");
  }

  /** "json" in any letter case. */
  predicate IsJsonWord(word: string) {
    |word| == 4 && word[0] in {'j', 'J'} && word[1] in {'s', 'S'} && word[2] in {'o', 'O'} && word[3] in {'n', 'N'}
  }

  /**
   From the first fence of a text the three marks go, and with them the word "json" right behind
   them, if it is there; what follows is treated alike.
   */
  lemma StripsFirstFence(a: string, word: string, b: string)
    requires forall k | 0 <= k < |a| :: !StartsWithFence((a + ("```" + word + b))[k..])
    requires IsJsonWord(word) || (word == "" && !(|b| >= 4 && IsJsonWord(b[..4])))
    ensures StripFences(a + ("```" + word + b)) == a + StripFences(b)
  {
    var t := "```" + word + b;
    KeepsUpTo(a, t);
    assert t[3 + |word|..] == b;
    if word == "" {
      assert t[3..] == b && StartsWithFence(t);
      assert |b| >= 4 ==> b[..4][0] == t[3] && b[..4][1] == t[4] && b[..4][2] == t[5] && b[..4][3] == t[6];
    } else {
      assert t[3] == word[0] && t[4] == word[1] && t[5] == word[2] && t[6] == word[3];
    }
  }

  /** One pass leaves no fence behind, not even one made by joining its pieces. */
  lemma {:induction false} StrippedHasNoFence(s: string)
    ensures !HasFence(StripFences(s))
  {
    var out := StripFences(s);
    if s == "" {
    } else if StartsWithJsonFence(s) {
      StrippedHasNoFence(s[7..]);
    } else if StartsWithFence(s) {
      StrippedHasNoFence(s[3..]);
    } else {
      var t := s[1..];
      StrippedHasNoFence(t);
      forall i | 0 <= i <= |out|
        ensures !StartsWithFence(out[i..])
      {
        if i > 0 {
          assert out[i..] == StripFences(t)[i - 1..];
        } else {
          assert out[0..] == out;
          if s[0] == '`' {
            assert s == ['`'] + t;
            KeptBackticks(t);
          }
        }
      }
    }
  }

  /** If the first two characters left of `t` are backticks, they were there and kept. */
  lemma KeptBackticks(t: string)
    requires !StartsWithFence(['`'] + t)
    ensures var u := StripFences(t);
            |u| >= 2 && u[0] == '`' && u[1] == '`' ==> StartsWithFence(['`'] + t)
  {
    var s := ['`'] + t;
    if t != "" && !StartsWithFence(t) {
      assert StripFences(t) == [t[0]] + StripFences(t[1..]);
      if t[1..] != "" && !StartsWithFence(t[1..]) {
        assert StripFences(t[1..]) == [t[1]] + StripFences(t[1..][1..]);
      }
    }
  }

  lemma {:induction false} StripAddsNothing(s: string, ch: char)
    requires ch !in s
    ensures ch !in StripFences(s)
  {
    if s != "" {
      var k := if StartsWithJsonFence(s) then 7 else if StartsWithFence(s) then 3 else 1;
      assert ch !in s[k..] by {
        assert forall i | 0 <= i < |s[k..]| :: s[k..][i] == s[k + i];
      }
      StripAddsNothing(s[k..], ch);
    }
  }

  lemma {:induction false} IndexOfFirst(a: string, b: string, ch: char)
    requires ch !in a && b != "" && b[0] == ch
    ensures IndexOf(a + b, ch) == |a|
  {
    if a == "" {
      assert a + b == b;
    } else {
      assert (a + b)[0] == a[0] && (a + b)[1..] == a[1..] + b;
      IndexOfFirst(a[1..], b, ch);
    }
  }

  /** What is extracted never holds a fence, whatever the text was. */
  lemma ExtractedHasNoFence(raw: string, t: string)
    requires Extract(raw) == Some(t)
    ensures !HasFence(t)
  {
    var text := StripFences(raw);
    var start := IndexOf(text, '{');
    StrippedHasNoFence(raw);
    ExtractIsFirstBlock(raw, t);
    SuffixHasNoFence(text, start);
    PrefixHasNoFence(text[start..], |t|);
    assert text[start..][..|t|] == t;
  }

  /**
   A block hidden in any text is recovered exactly, provided nothing before it
   opens a brace, precisely when the block itself holds no fence.
   */
  lemma ExtractRecoversBlock(prefix: string, block: string, suffix: string)
    requires '{' !in prefix && IsBlock(block)
    ensures Extract(prefix + block + suffix) == Some(block) <==> !HasFence(block)
  {
    var raw := prefix + block + suffix;
    if Extract(raw) == Some(block) {
      ExtractedHasNoFence(raw, block);
    }
    if !HasFence(block) {
      BlockSurvivesStripping(prefix, block, suffix);
      var text := StripFences(raw);
      var before, after := StripFences(prefix), StripFences(suffix);
      StripAddsNothing(prefix, '{');
      assert text == before + (block + after);
      IndexOfFirst(before, block + after, '{');
      assert text[|before|..] == block + after;
      ExtractIsFirstBlock(raw, block);
    }
  }

  lemma BlockSurvivesStripping(prefix: string, block: string, suffix: string)
    requires IsBlock(block) && !HasFence(block)
    ensures StripFences(prefix + block + suffix) == StripFences(prefix) + block + StripFences(suffix)
    ensures |block| >= 2 && block[0] == '{' && block[|block| - 1] == '}'
  {
    var b :| GoodBody(b) && block == BlockText(b);
    assert prefix + block + suffix == prefix + (block + suffix);
    StripAcross(prefix, block + suffix);
    StripKeeps(block, suffix);
  }
}

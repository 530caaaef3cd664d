/**
 The texts of RFC 8259 (whitespace: section 2, objects: section 4, strings: section
 7) and the round trip through the extraction. Every object text is a block of the
 grammar in `JsonExtract`, whatever its layout, its spelling of characters, and the
 quotes, braces and backslashes in its strings.
 */
module JsonPrint {
  import opened Options
  import opened JsonExtract

  // ---------------------------------------------------------------------
  // Object texts: any whitespace, any spelling of a character
  // ---------------------------------------------------------------------

  /** A character as it is, after a reverse solidus, or by its four hexadecimal digits. */
  datatype Spelled = Itself(c: char) | Short(c: char) | Hex(digits: string)

  datatype Tree =
    | Word(text: string)
    | Quote(chars: seq<Spelled>)
    | List(open: string, items: Items)
    | Record(open: string, fields: Fields)
  datatype Items = NoItems | Item(before: string, head: Tree, after: string, tail: Items)
  datatype Fields =
    | NoFields
    | Field(
        before: string, key: seq<Spelled>, preColon: string, postColon: string,
        value: Tree, after: string, tail: Fields)

  predicate IsGap(gap: string) {
    forall c <- gap :: c in " \t\n\r"
  }

  /** `null`, `true`, `false`, and a superset of the number tokens of section 6. */
  predicate IsWord(t: string) {
    t in {"null", "true", "false"} || (t != "" && forall c <- t :: c in "-+.eE0123456789")
  }

  predicate IsHexDigit(d: char) {
    '0' <= d <= '9' || 'a' <= d <= 'f' || 'A' <= d <= 'F'
  }

  predicate IsSpelled(s: Spelled) {
    match s
    case Itself(c) => c >= ' ' && c != '"' && c != '\\'
    case Short(c) => c in "\"\\/bfnrt"
    case Hex(digits) => |digits| == 4 && forall d <- digits :: IsHexDigit(d)
  }

  predicate IsTree(t: Tree) {
    match t
    case Word(text) => IsWord(text)
    case Quote(chars) => forall s <- chars :: IsSpelled(s)
    case List(open, items) => IsGap(open) && AreItems(items)
    case Record(open, fields) => IsGap(open) && AreFields(fields)
  }

  predicate AreItems(items: Items) {
    items.Item? ==> IsGap(items.before) && IsTree(items.head) && IsGap(items.after) && AreItems(items.tail)
  }

  predicate AreFields(fields: Fields) {
    fields.Field? ==>
      && IsGap(fields.before) && (forall s <- fields.key :: IsSpelled(s))
      && IsGap(fields.preColon) && IsGap(fields.postColon)
      && IsTree(fields.value) && IsGap(fields.after) && AreFields(fields.tail)
  }

  function SpelledPieces(s: Spelled): seq<Piece> {
    match s
    case Itself(c) => [Raw(c)]
    case Short(c) => [Escape(c)]
    case Hex(digits) => [Escape('u')] + seq(|digits|, i requires 0 <= i < |digits| => Raw(digits[i]))
  }

  function Pieces(chars: seq<Spelled>): seq<Piece> {
    if chars == [] then [] else SpelledPieces(chars[0]) + Pieces(chars[1..])
  }

  function QuoteText(chars: seq<Spelled>): string {
    "\"" + PiecesText(Pieces(chars)) + "\""
  }

  function TreeText(t: Tree): string {
    match t
    case Word(text) => text
    case Quote(chars) => QuoteText(chars)
    case List(open, items) => "[" + (open + ItemsText(items)) + "]"
    case Record(open, fields) => "{" + (open + FieldsText(fields)) + "}"
  }

  function ItemsText(items: Items): string {
    match items
    case NoItems => ""
    case Item(before, head, after, tail) =>
      before + TreeText(head) + after + (if tail.NoItems? then "" else "," + ItemsText(tail))
  }

  function FieldsText(fields: Fields): string {
    match fields
    case NoFields => ""
    case Field(before, key, preColon, postColon, value, after, tail) =>
      before + QuoteText(key) + (preColon + ":" + postColon) + TreeText(value) + after
      + (if tail.NoFields? then "" else "," + FieldsText(tail))
  }

  // ---------------------------------------------------------------------
  // Every such text is a body of the block grammar
  // ---------------------------------------------------------------------

  ghost predicate IsBody(t: string) {
    exists b :: GoodBody(b) && BodyText(b) == t
  }

  function Append(a: Body, b: Body): Body {
    match a
    case End => b
    case Plain(c, rest) => Plain(c, Append(rest, b))
    case Quoted(pieces, rest) => Quoted(pieces, Append(rest, b))
    case Nested(inner, rest) => Nested(inner, Append(rest, b))
  }

  lemma {:induction false} AppendText(a: Body, b: Body)
    requires GoodBody(a) && GoodBody(b)
    ensures GoodBody(Append(a, b)) && BodyText(Append(a, b)) == BodyText(a) + BodyText(b)
  {
    match a
    case End =>
    case Plain(c, rest) =>
      AppendText(rest, b);
      Assoc([c], BodyText(rest), BodyText(b));
    case Quoted(pieces, rest) =>
      AppendText(rest, b);
      Assoc("\"" + PiecesText(pieces) + "\"", BodyText(rest), BodyText(b));
    case Nested(inner, rest) =>
      AppendText(rest, b);
      Assoc("{" + BodyText(inner) + "}", BodyText(rest), BodyText(b));
  }

  lemma BodyConcat(s: string, t: string)
    requires IsBody(s) && IsBody(t)
    ensures IsBody(s + t)
  {
    var a :| GoodBody(a) && BodyText(a) == s;
    var b :| GoodBody(b) && BodyText(b) == t;
    AppendText(a, b);
  }

  lemma {:induction false} PlainIsBody(t: string)
    requires forall c <- t :: c !in "{}\""
    ensures IsBody(t)
  {
    if t == "" {
      assert BodyText(End) == t;
    } else {
      assert t[0] in t;
      PlainIsBody(t[1..]);
      var b :| GoodBody(b) && BodyText(b) == t[1..];
      assert t == [t[0]] + t[1..];
      assert GoodBody(Plain(t[0], b)) && BodyText(Plain(t[0], b)) == t;
    }
  }

  lemma NothingAfter(t: string)
    ensures t + "" == t
  {
  }

  lemma BracedIsBody(t: string)
    requires IsBody(t)
    ensures IsBody("{" + t + "}") && IsBlock("{" + t + "}")
  {
    var b :| GoodBody(b) && BodyText(b) == t;
    NothingAfter(BlockText(b));
    assert BodyText(Nested(b, End)) == BlockText(b);
    assert GoodBody(Nested(b, End));
  }

  lemma GoodSpelled(s: Spelled)
    requires IsSpelled(s)
    ensures forall p <- SpelledPieces(s) :: GoodPiece(p)
  {
    if s.Hex? {
      forall i | 0 <= i < |s.digits|
        ensures GoodPiece(Raw(s.digits[i]))
      {
        assert s.digits[i] in s.digits;
      }
    }
  }

  lemma {:induction false} GoodPieces(chars: seq<Spelled>)
    requires forall s <- chars :: IsSpelled(s)
    ensures forall p <- Pieces(chars) :: GoodPiece(p)
  {
    if chars != [] {
      GoodSpelled(chars[0]);
      GoodPieces(chars[1..]);
    }
  }

  lemma QuoteIsBody(chars: seq<Spelled>)
    requires forall s <- chars :: IsSpelled(s)
    ensures IsBody(QuoteText(chars))
  {
    GoodPieces(chars);
    var b := Quoted(Pieces(chars), End);
    NothingAfter(QuoteText(chars));
    assert BodyText(b) == QuoteText(chars) + BodyText(End);
    assert GoodBody(b);
  }

  lemma GapIsBody(gap: string)
    requires IsGap(gap)
    ensures IsBody(gap)
  {
    PlainIsBody(gap);
  }

  lemma ColonIsBody(pre: string, post: string)
    requires IsGap(pre) && IsGap(post)
    ensures IsBody(pre + ":" + post)
  {
    GapIsBody(pre);
    GapIsBody(post);
    PlainIsBody(":");
    BodyConcat(pre, ":");
    BodyConcat(pre + ":", post);
  }

  /** Every RFC 8259 text is a body. */
  lemma {:induction false} TreeIsBody(t: Tree)
    requires IsTree(t)
    ensures IsBody(TreeText(t))
    decreases t
  {
    match t
    case Word(text) => PlainIsBody(text);
    case Quote(chars) => QuoteIsBody(chars);
    case List(open, items) =>
      ItemsAreBody(items);
      GapIsBody(open);
      BodyConcat(open, ItemsText(items));
      PlainIsBody("[");
      PlainIsBody("]");
      BodyConcat("[", open + ItemsText(items));
      BodyConcat("[" + (open + ItemsText(items)), "]");
    case Record(open, fields) =>
      FieldsAreBody(fields);
      GapIsBody(open);
      BodyConcat(open, FieldsText(fields));
      BracedIsBody(open + FieldsText(fields));
  }

  /** What follows an item or a field. */
  lemma WithTail(s: string, none: bool, tail: string)
    requires IsBody(s) && IsBody(tail)
    ensures IsBody(s + (if none then "" else "," + tail))
  {
    PlainIsBody(",");
    PlainIsBody("");
    BodyConcat(",", tail);
    BodyConcat(s, if none then "" else "," + tail);
  }

  lemma {:induction false} ItemsAreBody(items: Items)
    requires AreItems(items)
    ensures IsBody(ItemsText(items))
    decreases items
  {
    match items
    case NoItems => PlainIsBody("");
    case Item(before, head, after, tail) =>
      TreeIsBody(head);
      ItemsAreBody(tail);
      GapIsBody(before);
      GapIsBody(after);
      BodyConcat(before, TreeText(head));
      BodyConcat(before + TreeText(head), after);
      WithTail(before + TreeText(head) + after, tail.NoItems?, ItemsText(tail));
  }

  lemma {:induction false} FieldsAreBody(fields: Fields)
    requires AreFields(fields)
    ensures IsBody(FieldsText(fields))
    decreases fields
  {
    match fields
    case NoFields => PlainIsBody("");
    case Field(before, key, preColon, postColon, value, after, tail) =>
      TreeIsBody(value);
      FieldsAreBody(tail);
      GapIsBody(before);
      GapIsBody(after);
      QuoteIsBody(key);
      ColonIsBody(preColon, postColon);
      var colon := preColon + ":" + postColon;
      BodyConcat(before, QuoteText(key));
      BodyConcat(before + QuoteText(key), colon);
      BodyConcat(before + QuoteText(key) + colon, TreeText(value));
      BodyConcat(before + QuoteText(key) + colon + TreeText(value), after);
      WithTail(before + QuoteText(key) + colon + TreeText(value) + after, tail.NoFields?, FieldsText(tail));
  }

  /** Every RFC 8259 object text is a block. */
  lemma ObjectTextIsBlock(t: Tree)
    requires t.Record? && IsTree(t)
    ensures IsBlock(TreeText(t))
  {
    FieldsAreBody(t.fields);
    GapIsBody(t.open);
    BodyConcat(t.open, FieldsText(t.fields));
    BracedIsBody(t.open + FieldsText(t.fields));
  }

  /**
   Every object text comes back unchanged from any text in which it is the first
   thing to open a brace, if and only if it holds no fence.
   */
  lemma ExtractRecoversObjectText(prefix: string, t: Tree, suffix: string)
    requires '{' !in prefix && t.Record? && IsTree(t)
    ensures Extract(prefix + TreeText(t) + suffix) == Some(TreeText(t)) <==> !HasFence(TreeText(t))
  {
    ObjectTextIsBlock(t);
    ExtractRecoversBlock(prefix, TreeText(t), suffix);
  }

  // ---------------------------------------------------------------------
  // Values and a printer
  // ---------------------------------------------------------------------

  datatype Json =
    | Null
    | Boolean(b: bool)
    | Number(text: string)
    | Text(chars: string)
    | Array(elements: Elements)
    | Object(members: Members)
  datatype Elements = NoElements | Element(head: Json, tail: Elements)
  datatype Members = NoMembers | Member(key: string, value: Json, tail: Members)

  predicate NumbersOk(v: Json) {
    match v
    case Number(t) => IsWord(t)
    case Array(es) => ElementsOk(es)
    case Object(ms) => MembersOk(ms)
    case _ => true
  }

  predicate ElementsOk(es: Elements) {
    es.Element? ==> NumbersOk(es.head) && ElementsOk(es.tail)
  }

  predicate MembersOk(ms: Members) {
    ms.Member? ==> NumbersOk(ms.value) && MembersOk(ms.tail)
  }

  function HexDigit(n: nat): char
    requires n < 16
  {
    "0123456789abcdef"[n]
  }

  /** Quotation mark, reverse solidus and control characters are escaped. */
  function Spell(c: char): (s: Spelled)
    ensures IsSpelled(s)
  {
    if c == '"' || c == '\\' then Short(c)
    else if c == '\n' then Short('n')
    else if c == '\r' then Short('r')
    else if c == '\t' then Short('t')
    else if c < ' ' then Hex(['0', '0', HexDigit(c as int / 16), HexDigit(c as int % 16)])
    else Itself(c)
  }

  function SpellAll(s: string): (r: seq<Spelled>)
    ensures |r| == |s| && forall x <- r :: IsSpelled(x)
  {
    if s == "" then [] else [Spell(s[0])] + SpellAll(s[1..])
  }

  /** A layout with the same gap everywhere: none, a space, or a line break with some indentation. */
  function LayOut(v: Json, gap: string): Tree {
    match v
    case Null => Word("null")
    case Boolean(b) => Word(if b then "true" else "false")
    case Number(t) => Word(t)
    case Text(s) => Quote(SpellAll(s))
    case Array(es) => List("", LayOutElements(es, gap))
    case Object(ms) => Record("", LayOutMembers(ms, gap))
  }

  function LayOutElements(es: Elements, gap: string): Items {
    match es
    case NoElements => NoItems
    case Element(v, tail) => Item(gap, LayOut(v, gap), gap, LayOutElements(tail, gap))
  }

  function LayOutMembers(ms: Members, gap: string): Fields {
    match ms
    case NoMembers => NoFields
    case Member(k, v, tail) => Field(gap, SpellAll(k), gap, gap, LayOut(v, gap), gap, LayOutMembers(tail, gap))
  }

  function Print(v: Json, gap: string): string {
    TreeText(LayOut(v, gap))
  }

  lemma {:induction false} LaidOutIsTree(v: Json, gap: string)
    requires NumbersOk(v) && IsGap(gap)
    ensures IsTree(LayOut(v, gap))
    decreases v
  {
    match v
    case Array(es) => ElementsLaidOut(es, gap);
    case Object(ms) => MembersLaidOut(ms, gap);
    case _ =>
  }

  lemma {:induction false} ElementsLaidOut(es: Elements, gap: string)
    requires ElementsOk(es) && IsGap(gap)
    ensures AreItems(LayOutElements(es, gap))
    decreases es
  {
    if es.Element? {
      LaidOutIsTree(es.head, gap);
      ElementsLaidOut(es.tail, gap);
    }
  }

  lemma {:induction false} MembersLaidOut(ms: Members, gap: string)
    requires MembersOk(ms) && IsGap(gap)
    ensures AreFields(LayOutMembers(ms, gap))
    decreases ms
  {
    if ms.Member? {
      LaidOutIsTree(ms.value, gap);
      MembersLaidOut(ms.tail, gap);
    }
  }

  /**
   The round trip: a printed object comes back unchanged from any text in which
   it is the first thing to open a brace, if and only if it holds no fence.
   */
  lemma ExtractUndoesPrint(prefix: string, v: Json, gap: string, suffix: string)
    requires '{' !in prefix && v.Object? && NumbersOk(v) && IsGap(gap)
    ensures Extract(prefix + Print(v, gap) + suffix) == Some(Print(v, gap))
       <==> !HasFence(Print(v, gap))
  {
    LaidOutIsTree(v, gap);
    ExtractRecoversObjectText(prefix, LayOut(v, gap), suffix);
  }
}

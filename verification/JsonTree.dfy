/**
 * JSON value trees with their whitespace (RFC 8259 sections 2 to 7), printed to bytes, and the
 * scanner's behaviour on every such print: each value's end exactly, each entry exactly.
 */
module JsonTree {
  import opened Arithmetic
  import opened Bytes
  import opened JsonScan
  import opened Options

  datatype Kind = Array | Object

  datatype Value =
    | Literal(word: seq<byte>)
    | Number(lexeme: seq<byte>)
    | Str(raw: seq<byte>)
    | Empty(kind: Kind, space: seq<byte>)
    | Container(kind: Kind, items: Items)

  /** The key of an object member and the whitespace around its colon. */
  datatype Tag = NoTag | Tag(key: seq<byte>, beforeColon: seq<byte>, afterColon: seq<byte>)

  datatype Item = Item(before: seq<byte>, tag: Tag, value: Value, after: seq<byte>)

  /** A non-empty comma-separated list. */
  datatype Items = Last(item: Item) | More(item: Item, rest: Items)

  function Open(k: Kind): byte {
    if k.Array? then LBRACKET else LBRACE
  }

  function Close(k: Kind): byte {
    if k.Array? then RBRACKET else RBRACE
  }

  // ---------- printing ----------

  function Quoted(raw: seq<byte>): seq<byte> {
    [QUOTE] + raw + [QUOTE]
  }

  function PrintTag(l: Tag): seq<byte> {
    match l
    case NoTag => []
    case Tag(key, b, a) => Quoted(key) + b + [COLON] + a
  }

  function Print(v: Value): (s: seq<byte>)
    decreases v
  {
    match v
    case Literal(w) => w
    case Number(x) => x
    case Str(raw) => Quoted(raw)
    case Empty(k, space) => [Open(k)] + space + [Close(k)]
    case Container(k, items) => [Open(k)] + PrintItems(items) + [Close(k)]
  }

  function PrintItem(it: Item): seq<byte>
    decreases it
  {
    it.before + PrintTag(it.tag) + Print(it.value) + it.after
  }

  function PrintItems(items: Items): seq<byte>
    decreases items
  {
    match items
    case Last(it) => PrintItem(it)
    case More(it, rest) => PrintItem(it) + [COMMA] + PrintItems(rest)
  }

  // ---------- well-formed trees ----------

  /** Space, tab, line feed and carriage return (section 2). */
  predicate AllSpace(s: seq<byte>) {
    forall i :: 0 <= i < |s| ==> s[i] == 32 || s[i] == 9 || s[i] == 10 || s[i] == 13
  }

  /** What numbers are written with: digits, signs, the point and the exponent (section 6). */
  predicate AllNumeric(s: seq<byte>) {
    forall i :: 0 <= i < |s| ==> 48 <= s[i] <= 57 || s[i] == 43 || s[i] == 45 || s[i] == 46 || s[i] == 69 || s[i] == 101
  }

  /** Between quotes: walking escapes two bytes at a time meets no quote and ends at the end. */
  predicate RawString(s: seq<byte>)
    decreases |s|
  {
    if s == [] then true
    else if s[0] == BACKSLASH then |s| >= 2 && RawString(s[2..])
    else s[0] != QUOTE && RawString(s[1..])
  }

  predicate TagOk(l: Tag) {
    l.Tag? ==> RawString(l.key) && AllSpace(l.beforeColon) && AllSpace(l.afterColon)
  }

  predicate WellFormed(v: Value)
    decreases v
  {
    match v
    case Literal(w) => w == TRUE || w == FALSE || w == NULL
    case Number(x) => x != [] && AllNumeric(x)
    case Str(raw) => RawString(raw)
    case Empty(_, space) => AllSpace(space)
    case Container(k, items) => ItemsOk(items, k)
  }

  predicate ItemOk(it: Item)
    decreases it
  {
    AllSpace(it.before) && TagOk(it.tag) && WellFormed(it.value) && AllSpace(it.after)
  }

  predicate ItemsOk(items: Items, k: Kind)
    decreases items
  {
    && (items.item.tag.Tag? <==> k.Object?)
    && ItemOk(items.item)
    && (items.More? ==> ItemsOk(items.rest, k))
  }

  // ---------- text found at a position ----------

  predicate At(p: seq<byte>, j: nat, s: seq<byte>) {
    j + |s| <= |p| && p[j..j + |s|] == s
  }

  lemma AtSplit(p: seq<byte>, j: nat, a: seq<byte>, b: seq<byte>)
    requires At(p, j, a + b)
    ensures At(p, j, a) && At(p, j + |a|, b)
  {
    assert p[j..j + |a|] == p[j..j + |a + b|][..|a|];
    assert p[j + |a|..j + |a| + |b|] == p[j..j + |a + b|][|a|..];
  }

  lemma AtIndex(p: seq<byte>, j: nat, s: seq<byte>, i: nat)
    requires At(p, j, s) && i < |s|
    ensures p[j + i] == s[i]
  {
    assert p[j..j + |s|][i] == p[j + i];
  }

  /** Splitting a quoted string off. */
  lemma AtQuoted(p: seq<byte>, j: nat, raw: seq<byte>)
    requires At(p, j, Quoted(raw))
    ensures p[j] == QUOTE && At(p, j + 1, raw) && p[j + 1 + |raw|] == QUOTE
  {
    AtSplit(p, j, [QUOTE] + raw, [QUOTE]);
    AtSplit(p, j, [QUOTE], raw);
    AtIndex(p, j, Quoted(raw), 0);
    AtIndex(p, j, Quoted(raw), 1 + |raw|);
  }

  // ---------- the walks over printed pieces ----------

  lemma {:induction false} SkipsSpace(p: seq<byte>, j: nat, s: seq<byte>)
    requires At(p, j, s) && AllSpace(s) && j + |s| < |p| && !IsSpace(p[j + |s|])
    ensures SkipSpace(p, j) == Some(j + |s|)
    decreases |s|
  {
    if s != [] {
      AtIndex(p, j, s, 0);
      AtTail(p, j, s, 1);
      SkipsSpace(p, j + 1, s[1..]);
    }
  }

  lemma AtTail(p: seq<byte>, j: nat, s: seq<byte>, n: nat)
    requires At(p, j, s) && n <= |s|
    ensures At(p, j + n, s[n..])
  {
    assert s == s[..n] + s[n..];
    AtSplit(p, j, s[..n], s[n..]);
  }

  /** A string's scan ends exactly at its closing quote, whatever escapes it holds. */
  lemma {:induction false} StringScanExact(p: seq<byte>, j: nat, raw: seq<byte>)
    requires RawString(raw) && At(p, j, raw) && j + |raw| < |p| && p[j + |raw|] == QUOTE
    ensures StringEnd(p, j) == Some(j + |raw| + 1)
    decreases |raw|
  {
    if raw != [] {
      AtIndex(p, j, raw, 0);
      if raw[0] == BACKSLASH {
        AtTail(p, j, raw, 2);
        StringScanExact(p, j + 2, raw[2..]);
      } else {
        AtTail(p, j, raw, 1);
        StringScanExact(p, j + 1, raw[1..]);
      }
    }
  }

  /** Bytes the bracket matcher walks over without noticing. */
  predicate Neutral(b: byte, open: byte) {
    b != QUOTE && b != open && b != ClosingOf(open)
  }

  predicate AllNeutral(s: seq<byte>, open: byte) {
    forall i :: 0 <= i < |s| ==> Neutral(s[i], open)
  }

  predicate IsOpen(b: byte) {
    b == LBRACE || b == LBRACKET
  }

  lemma {:induction false} WalksNeutral(p: seq<byte>, j: nat, s: seq<byte>, depth: nat, open: byte)
    requires depth > 0 && At(p, j, s) && AllNeutral(s, open)
    ensures NestedEnd(p, j, depth, open) == NestedEnd(p, j + |s|, depth, open)
    decreases |s|
  {
    if s != [] {
      AtIndex(p, j, s, 0);
      AtTail(p, j, s, 1);
      WalksNeutral(p, j + 1, s[1..], depth, open);
    }
  }

  lemma WalksQuoted(p: seq<byte>, j: nat, raw: seq<byte>, depth: nat, open: byte)
    requires depth > 0 && RawString(raw) && At(p, j, Quoted(raw))
    ensures NestedEnd(p, j, depth, open) == NestedEnd(p, j + |raw| + 2, depth, open)
  {
    AtQuoted(p, j, raw);
    StringScanExact(p, j + 1, raw);
  }

  lemma WalksTag(p: seq<byte>, j: nat, l: Tag, depth: nat, open: byte)
    requires depth > 0 && TagOk(l) && IsOpen(open) && At(p, j, PrintTag(l))
    ensures NestedEnd(p, j, depth, open) == NestedEnd(p, j + |PrintTag(l)|, depth, open)
  {
    hide NestedEnd, RawString, Quoted, At, PrintTag;
    if l.Tag? {
      var n := |l.key| + 2;
      AtTag(p, j, l);
      WalksQuoted(p, j, l.key, depth, open);
      WalksNeutral(p, j + n, l.beforeColon, depth, open);
      WalksNeutral(p, j + n + |l.beforeColon|, [COLON], depth, open);
      WalksNeutral(p, j + n + |l.beforeColon| + 1, l.afterColon, depth, open);
    } else {
      NoTagPrint();
    }
  }

  lemma NoTagPrint()
    ensures PrintTag(NoTag) == []
  {
  }

  /** Where the parts of a printed key are. */
  lemma AtTag(p: seq<byte>, j: nat, l: Tag)
    requires l.Tag? && At(p, j, PrintTag(l))
    ensures var n := |l.key| + 2;
            && |PrintTag(l)| == n + |l.beforeColon| + 1 + |l.afterColon|
            && At(p, j, Quoted(l.key)) && At(p, j + n, l.beforeColon)
            && At(p, j + n + |l.beforeColon|, [COLON])
            && At(p, j + n + |l.beforeColon| + 1, l.afterColon)
  {
    hide Quoted, At;
    var q := Quoted(l.key);
    QuotedSize(l.key);
    AtSplit(p, j, q + l.beforeColon + [COLON], l.afterColon);
    AtSplit(p, j, q + l.beforeColon, [COLON]);
    AtSplit(p, j, q, l.beforeColon);
  }

  lemma QuotedSize(raw: seq<byte>)
    ensures |Quoted(raw)| == |raw| + 2
  {
  }

  lemma PlainIsNeutral(v: Value, open: byte)
    requires WellFormed(v) && IsOpen(open)
    ensures v.Literal? ==> AllNeutral(v.word, open)
    ensures v.Number? ==> AllNeutral(v.lexeme, open)
    ensures v.Empty? ==> AllNeutral(v.space, open)
  {
    hide RawString, ItemsOk;
  }

  /** Walking any printed value leaves the depth as it was. */
  lemma {:induction false} WalksValue(p: seq<byte>, j: nat, v: Value, depth: nat, open: byte)
    requires depth > 0 && WellFormed(v) && IsOpen(open) && At(p, j, Print(v))
    ensures NestedEnd(p, j, depth, open) == NestedEnd(p, j + |Print(v)|, depth, open)
    decreases v
  {
    hide NestedEnd, PrintItems, RawString, At, IsOpen, ItemsOk, AllNeutral, Quoted;
    PlainIsNeutral(v, open);
    match v
    case Literal(w) =>
      WalksNeutral(p, j, w, depth, open);
    case Number(x) =>
      WalksNeutral(p, j, x, depth, open);
    case Str(raw) =>
      QuotedSize(raw);
      WalksQuoted(p, j, raw, depth, open);
    case Empty(k, space) =>
      AtBracketed(p, j, k, space);
      WalksNeutral(p, j + 1, space, Inner(k, depth, open), open);
      WalksBrackets(p, j, k, space, depth, open);
    case Container(k, items) =>
      AtBracketed(p, j, k, PrintItems(items));
      WalksItems(p, j + 1, items, k, Inner(k, depth, open), open);
      WalksBrackets(p, j, k, PrintItems(items), depth, open);
  }

  /** The depth inside a container: one more if its brackets are the kind being counted. */
  function Inner(k: Kind, depth: nat, open: byte): nat {
    if Open(k) == open then depth + 1 else depth
  }

  lemma AtBracketed(p: seq<byte>, j: nat, k: Kind, body: seq<byte>)
    requires At(p, j, [Open(k)] + body + [Close(k)])
    ensures p[j] == Open(k) && At(p, j + 1, body) && j + 1 + |body| < |p| && p[j + 1 + |body|] == Close(k)
  {
    AtSplit(p, j, [Open(k)] + body, [Close(k)]);
    AtSplit(p, j, [Open(k)], body);
    AtIndex(p, j, [Open(k)] + body + [Close(k)], 0);
    AtIndex(p, j, [Open(k)] + body + [Close(k)], 1 + |body|);
  }

  lemma EntersContainer(p: seq<byte>, j: nat, k: Kind, depth: nat, open: byte)
    requires depth > 0 && IsOpen(open) && j < |p| && p[j] == Open(k)
    ensures NestedEnd(p, j, depth, open) == NestedEnd(p, j + 1, Inner(k, depth, open), open)
  {
  }

  lemma LeavesContainer(p: seq<byte>, j: nat, k: Kind, depth: nat, open: byte)
    requires depth > 0 && IsOpen(open) && j < |p| && p[j] == Close(k)
    ensures NestedEnd(p, j, Inner(k, depth, open), open) == NestedEnd(p, j + 1, depth, open)
  {
  }

  /** Brackets around anything that keeps the depth keep it too. */
  lemma WalksBrackets(p: seq<byte>, j: nat, k: Kind, body: seq<byte>, depth: nat, open: byte)
    requires depth > 0 && IsOpen(open) && At(p, j, [Open(k)] + body + [Close(k)])
    requires NestedEnd(p, j + 1, Inner(k, depth, open), open) == NestedEnd(p, j + 1 + |body|, Inner(k, depth, open), open)
    ensures NestedEnd(p, j, depth, open) == NestedEnd(p, j + |body| + 2, depth, open)
  {
    hide NestedEnd, At, IsOpen;
    AtBracketed(p, j, k, body);
    EntersContainer(p, j, k, depth, open);
    LeavesContainer(p, j + 1 + |body|, k, depth, open);
  }

  lemma {:induction false} WalksItem(p: seq<byte>, j: nat, it: Item, depth: nat, open: byte)
    requires depth > 0 && ItemOk(it) && IsOpen(open) && At(p, j, PrintItem(it))
    ensures NestedEnd(p, j, depth, open) == NestedEnd(p, j + |PrintItem(it)|, depth, open)
    decreases it
  {
    hide NestedEnd, Print, PrintTag, WellFormed, TagOk;
    AtItem(p, j, it);
    var j1 := j + |it.before|;
    var j2 := j1 + |PrintTag(it.tag)|;
    var j3 := j2 + |Print(it.value)|;
    WalksNeutral(p, j, it.before, depth, open);
    WalksTag(p, j1, it.tag, depth, open);
    WalksValue(p, j2, it.value, depth, open);
    WalksNeutral(p, j3, it.after, depth, open);
  }

  lemma AtItem(p: seq<byte>, j: nat, it: Item)
    requires At(p, j, PrintItem(it))
    ensures At(p, j, it.before)
    ensures At(p, j + |it.before|, PrintTag(it.tag))
    ensures At(p, j + |it.before| + |PrintTag(it.tag)|, Print(it.value))
    ensures At(p, j + |it.before| + |PrintTag(it.tag)| + |Print(it.value)|, it.after)
  {
    hide Print, PrintTag;
    var a, b, c := it.before, PrintTag(it.tag), Print(it.value);
    AtSplit(p, j, a + b + c, it.after);
    AtSplit(p, j, a + b, c);
    AtSplit(p, j, a, b);
  }

  lemma {:induction false} WalksItems(p: seq<byte>, j: nat, items: Items, k: Kind, depth: nat, open: byte)
    requires depth > 0 && ItemsOk(items, k) && IsOpen(open) && At(p, j, PrintItems(items))
    ensures NestedEnd(p, j, depth, open) == NestedEnd(p, j + |PrintItems(items)|, depth, open)
    decreases items
  {
    hide NestedEnd, PrintItem, ItemOk;
    match items
    case Last(it) =>
      WalksItem(p, j, it, depth, open);
    case More(it, rest) =>
      var a := PrintItem(it);
      AtSplit(p, j, a + [COMMA], PrintItems(rest));
      AtSplit(p, j, a, [COMMA]);
      WalksItem(p, j, it, depth, open);
      WalksNeutral(p, j + |a|, [COMMA], depth, open);
      WalksItems(p, j + |a| + 1, rest, k, depth, open);
  }

  // ---------- a value's end, exactly ----------

  /** A number needs something after it that is not part of a number; anything else needs nothing. */
  predicate Terminated(p: seq<byte>, end: nat, v: Value) {
    v.Number? ==> end >= |p| || !IsNumberByte(p[end])
  }

  lemma {:induction false} NumberExact(p: seq<byte>, j: nat, x: seq<byte>)
    requires At(p, j, x) && AllNumeric(x)
    requires j + |x| >= |p| || !IsNumberByte(p[j + |x|])
    ensures NumberEnd(p, j) == j + |x|
    decreases |x|
  {
    if x != [] {
      AtIndex(p, j, x, 0);
      AtTail(p, j, x, 1);
      NumberExact(p, j + 1, x[1..]);
    }
  }

  /** The scan of a printed value ends exactly where the value ends. */
  lemma ValueScanExact(p: seq<byte>, j: nat, v: Value)
    requires WellFormed(v) && At(p, j, Print(v)) && Terminated(p, j + |Print(v)|, v)
    ensures ValueEnd(p, j) == Some(j + |Print(v)|)
  {
    hide NestedEnd, PrintItems, RawString, StringEnd, ValueEnd, At, ItemsOk;
    match v
    case Literal(w) => LiteralScan(p, j, v);
    case Number(x) => NumberScan(p, j, v);
    case Str(raw) => StringScan(p, j, v);
    case Empty(k, space) =>
      AtBracketed(p, j, k, space);
      WalksNeutral(p, j + 1, space, 1, Open(k));
      BracketScan(p, j, k, space);
    case Container(k, items) =>
      AtBracketed(p, j, k, PrintItems(items));
      WalksItems(p, j + 1, items, k, 1, Open(k));
      BracketScan(p, j, k, PrintItems(items));
  }

  lemma LiteralScan(p: seq<byte>, j: nat, v: Value)
    requires v.Literal? && WellFormed(v) && At(p, j, v.word)
    ensures ValueEnd(p, j) == Some(j + |v.word|)
  {
    hide NestedEnd, StringEnd, NumberEnd;
    AtIndex(p, j, v.word, 0);
  }

  lemma NumberScan(p: seq<byte>, j: nat, v: Value)
    requires v.Number? && WellFormed(v) && At(p, j, v.lexeme) && Terminated(p, j + |v.lexeme|, v)
    ensures ValueEnd(p, j) == Some(j + |v.lexeme|)
  {
    hide NestedEnd, StringEnd, NumberEnd;
    AtIndex(p, j, v.lexeme, 0);
    NumberExact(p, j, v.lexeme);
  }

  lemma StringScan(p: seq<byte>, j: nat, v: Value)
    requires v.Str? && WellFormed(v) && At(p, j, Quoted(v.raw))
    ensures ValueEnd(p, j) == Some(j + |Quoted(v.raw)|)
  {
    hide NestedEnd, StringEnd, NumberEnd, RawString;
    AtQuoted(p, j, v.raw);
    StringScanExact(p, j + 1, v.raw);
    QuotedSize(v.raw);
  }

  lemma BracketScan(p: seq<byte>, j: nat, k: Kind, body: seq<byte>)
    requires At(p, j, [Open(k)] + body + [Close(k)])
    requires NestedEnd(p, j + 1, 1, Open(k)) == NestedEnd(p, j + 1 + |body|, 1, Open(k))
    ensures ValueEnd(p, j) == Some(j + |body| + 2)
  {
    hide NestedEnd, StringEnd, NumberEnd, At;
    AtBracketed(p, j, k, body);
    ClosesContainer(p, j + 1 + |body|, k);
  }

  lemma ClosesContainer(p: seq<byte>, j: nat, k: Kind)
    requires j < |p| && p[j] == Close(k)
    ensures NestedEnd(p, j, 1, Open(k)) == Some(j + 1)
  {
  }

  /** A printed value starts with no whitespace. */
  lemma ValueStart(v: Value)
    requires WellFormed(v)
    ensures Print(v) != [] && !IsSpace(Print(v)[0])
  {
  }

  // ---------- the entries of a printed object, exactly ----------

  function EntryOf(it: Item): Entry
    requires it.tag.Tag?
  {
    Entry(it.tag.key, Print(it.value))
  }

  function EntriesOf(items: Items): seq<Entry>
    requires ItemsOk(items, Object)
    decreases items
  {
    match items
    case Last(it) => [EntryOf(it)]
    case More(it, rest) => [EntryOf(it)] + EntriesOf(rest)
  }

  /** A byte no item goes on with: a comma, the closing brace, or any other but space and numbers. */
  predicate Breaks(b: byte) {
    !AllSpace([b]) && !AllNumeric([b])
  }

  predicate ItemEnds(p: seq<byte>, end: nat) {
    end < |p| && Breaks(p[end])
  }

  lemma BreaksMeans(b: byte)
    ensures Breaks(b) <==> !IsSpace(b) && !IsNumberByte(b)
    ensures Breaks(COMMA) && Breaks(RBRACE)
  {
    assert [b][0] == b && [COMMA][0] == COMMA && [RBRACE][0] == RBRACE;
  }

  /** One entry, read off the four scans it is made of. */
  lemma OneEntryIs(p: seq<byte>, j: nat, v0: nat, vend: nat, key: seq<byte>)
    requires j < |p| && p[j] == QUOTE
    requires var end := StringEnd(p, j + 1);
             && end.Some? && p[j + 1..end.value - 1] == key
             && var k := SkipSpace(p, end.value);
             && k.Some? && p[k.value] == COLON && SkipSpace(p, k.value + 1) == Some(v0)
    requires ValueEnd(p, v0) == Some(vend)
    ensures OneEntry(p, j) == Some((Entry(key, p[v0..vend]), vend))
  {
    hide SkipSpace, StringEnd, ValueEnd;
  }

  lemma ItemValueExact(p: seq<byte>, j: nat, it: Item)
    requires ItemOk(it) && At(p, j, PrintItem(it)) && ItemEnds(p, j + |PrintItem(it)|)
    ensures var v0 := j + |it.before| + |PrintTag(it.tag)|;
            var vend := v0 + |Print(it.value)|;
            && v0 < |p| && !IsSpace(p[v0])
            && ValueEnd(p, v0) == Some(vend) && p[v0..vend] == Print(it.value)
            && SkipSpace(p, vend) == Some(j + |PrintItem(it)|)
  {
    hide SkipSpace, ValueEnd, RawString, WellFormed, Print, PrintTag, AllSpace, TagOk;
    var v0 := j + |it.before| + |PrintTag(it.tag)|;
    var vend := v0 + |Print(it.value)|;
    BreaksMeans(p[j + |PrintItem(it)|]);
    AtItem(p, j, it);
    ValueStart(it.value);
    AtIndex(p, v0, Print(it.value), 0);
    SpaceOrEnd(p, vend, it.after);
    ValueScanExact(p, v0, it.value);
    SkipsSpace(p, vend, it.after);
  }

  lemma EntryExact(p: seq<byte>, j: nat, it: Item)
    requires ItemOk(it) && it.tag.Tag? && At(p, j, PrintItem(it)) && ItemEnds(p, j + |PrintItem(it)|)
    ensures SkipSpace(p, j).Some?
    ensures var r := OneEntry(p, SkipSpace(p, j).value);
            && r.Some? && r.value.0 == EntryOf(it)
            && SkipSpace(p, r.value.1) == Some(j + |PrintItem(it)|)
  {
    hide SkipSpace, StringEnd, ValueEnd, RawString, WellFormed, Print, PrintTag, PrintItem, AllSpace, TagOk, At, OneEntry,
         ItemEnds;
    var j1 := j + |it.before|;
    var v0 := j1 + |PrintTag(it.tag)|;
    AtItem(p, j, it);
    ItemValueExact(p, j, it);
    TagExact(p, j1, it.tag);
    SkipsSpace(p, j, it.before);
    OneEntryIs(p, j1, v0, v0 + |Print(it.value)|, it.tag.key);
  }

  /** A printed key and its colon, up to the value, read exactly. */
  lemma TagExact(p: seq<byte>, j: nat, t: Tag)
    requires t.Tag? && TagOk(t) && At(p, j, PrintTag(t))
    requires j + |PrintTag(t)| < |p| && !IsSpace(p[j + |PrintTag(t)|])
    ensures j < |p| && p[j] == QUOTE
    ensures var end := StringEnd(p, j + 1);
            && end.Some? && p[j + 1..end.value - 1] == t.key
            && var k := SkipSpace(p, end.value);
            && k.Some? && p[k.value] == COLON
            && SkipSpace(p, k.value + 1) == Some(j + |PrintTag(t)|)
  {
    hide SkipSpace, StringEnd, RawString, Quoted, PrintTag, At, IsSpace;
    var n := |t.key| + 2;
    AtTag(p, j, t);
    AtQuoted(p, j, t.key);
    AtSlice(p, j + 1, t.key);
    StringScanExact(p, j + 1, t.key);
    AtIndex(p, j + n + |t.beforeColon|, [COLON], 0);
    ColonIsNoSpace();
    SkipsSpace(p, j + n, t.beforeColon);
    SkipsSpace(p, j + n + |t.beforeColon| + 1, t.afterColon);
  }

  lemma AtSlice(p: seq<byte>, j: nat, s: seq<byte>)
    requires At(p, j, s)
    ensures j + |s| <= |p| && p[j..j + |s|] == s
  {
  }

  lemma ColonIsNoSpace()
    ensures !IsSpace(COLON)
  {
  }

  lemma SpaceOrEnd(p: seq<byte>, j: nat, s: seq<byte>)
    requires At(p, j, s) && AllSpace(s) && ItemEnds(p, j + |s|)
    ensures !IsNumberByte(p[j])
  {
    BreaksMeans(p[j + |s|]);
    if s != [] {
      AtIndex(p, j, s, 0);
    }
  }

  lemma FirstEntry(p: seq<byte>, j: nat, it: Item)
    requires ItemOk(it) && it.tag.Tag? && At(p, j, PrintItem(it)) && ItemEnds(p, j + |PrintItem(it)|)
    ensures var end := j + |PrintItem(it)|;
            EntriesFrom(p, j) == [EntryOf(it)] + if p[end] == COMMA then EntriesFrom(p, end + 1) else []
  {
    hide SkipSpace, OneEntry, ItemOk, PrintItem, EntriesFrom, Breaks, At;
    EntryExact(p, j, it);
    EntriesUnfold(p, j);
  }

  /** Printed members are the entries visited; after a comma the scan goes on, and anything else ends it. */
  lemma {:induction false} EntriesExact(p: seq<byte>, j: nat, items: Items)
    requires ItemsOk(items, Object) && At(p, j, PrintItems(items)) && ItemEnds(p, j + |PrintItems(items)|)
    ensures var end := j + |PrintItems(items)|;
            EntriesFrom(p, j) == EntriesOf(items) + if p[end] == COMMA then EntriesFrom(p, end + 1) else []
    decreases items
  {
    hide ItemOk, PrintItem, EntriesFrom, Breaks, At, AllSpace;
    match items
    case Last(it) =>
      FirstEntry(p, j, it);
    case More(it, rest) =>
      var a := PrintItem(it);
      AtSplit(p, j, a + [COMMA], PrintItems(rest));
      AtSplit(p, j, a, [COMMA]);
      AtIndex(p, j + |a|, [COMMA], 0);
      AtSlice(p, j + |a|, [COMMA]);
      BreaksMeans(COMMA);
      FirstEntry(p, j, it);
      EntriesExact(p, j + |a| + 1, rest);
      var end := j + |PrintItems(items)|;
      Assoc([EntryOf(it)], EntriesOf(rest), if p[end] == COMMA then EntriesFrom(p, end + 1) else []);
  }

  /** A document: an object with whitespace before it and anything at all after it. */
  function Document(before: seq<byte>, items: Items, after: seq<byte>): seq<byte> {
    before + Print(Container(Object, items)) + after
  }

  function EmptyDocument(before: seq<byte>, space: seq<byte>, after: seq<byte>): seq<byte> {
    before + Print(Empty(Object, space)) + after
  }

  /**
   * However an object goes on after some printed members, those are visited first, in order; and if
   * what comes next is no comma, they are all.
   */
  lemma ScansMembersFirst(before: seq<byte>, items: Items, c: byte, after: seq<byte>)
    requires AllSpace(before) && ItemsOk(items, Object) && Breaks(c)
    ensures var p := before + [LBRACE] + PrintItems(items) + [c] + after;
            && (c != COMMA ==> Entries(p) == EntriesOf(items))
            && (c == COMMA ==> exists more :: Entries(p) == EntriesOf(items) + more)
  {
    hide SkipSpace, PrintItems, EntriesFrom, ItemsOk, Breaks;
    var p, body := before + [LBRACE] + PrintItems(items) + [c] + after, PrintItems(items);
    assert At(p, 0, p);
    AtSplit(p, 0, before + [LBRACE] + body + [c], after);
    AtSplit(p, 0, before + [LBRACE] + body, [c]);
    AtSplit(p, 0, before + [LBRACE], body);
    AtSplit(p, 0, before, [LBRACE]);
    AtIndex(p, |before|, [LBRACE], 0);
    AtIndex(p, |before| + 1 + |body|, [c], 0);
    SkipsSpace(p, 0, before);
    EntriesExact(p, |before| + 1, items);
    assert EntriesOf(items) + [] == EntriesOf(items);
  }

  /**
   * The scanner visits exactly the members of a printed object, in order, each with its key and
   * exactly the bytes its value was printed as, however deeply nested.
   */
  lemma ScansExactly(before: seq<byte>, items: Items, after: seq<byte>)
    requires AllSpace(before) && ItemsOk(items, Object)
    ensures Entries(Document(before, items, after)) == EntriesOf(items)
  {
    hide PrintItems, Entries, ItemsOk, Breaks;
    var body := PrintItems(items);
    BreaksMeans(RBRACE);
    ScansMembersFirst(before, items, RBRACE, after);
    assert before + ([LBRACE] + body + [RBRACE]) + after == before + [LBRACE] + body + [RBRACE] + after;
  }

  /** What does not begin with a brace has no entries. */
  lemma ScansObjectsOnly(before: seq<byte>, c: byte, after: seq<byte>)
    requires AllSpace(before) && !AllSpace([c]) && c != LBRACE
    ensures Entries(before + [c] + after) == [] && Entries(before) == []
  {
    hide SkipSpace;
    var p := before + [c] + after;
    assert At(p, 0, p);
    AtSplit(p, 0, before + [c], after);
    AtSplit(p, 0, before, [c]);
    AtIndex(p, |before|, [c], 0);
    assert [c][0] == c;
    SkipsSpace(p, 0, before);
    OnlySpace(before, 0);
  }

  lemma {:induction false} OnlySpace(s: seq<byte>, i: nat)
    requires AllSpace(s)
    ensures SkipSpace(s, i).None?
    decreases |s| - i
  {
    if i < |s| {
      OnlySpace(s, i + 1);
    }
  }

  /** An empty object, with any whitespace inside, has no entries. */
  lemma ScansEmpty(before: seq<byte>, space: seq<byte>, after: seq<byte>)
    requires AllSpace(before) && AllSpace(space)
    ensures Entries(EmptyDocument(before, space, after)) == []
  {
    hide SkipSpace;
    var p := EmptyDocument(before, space, after);
    var v := [LBRACE] + space + [RBRACE];
    assert At(p, 0, p) && p == before + v + after;
    AtSplit(p, 0, before + v, after);
    AtSplit(p, 0, before, v);
    AtBracketed(p, |before|, Object, space);
    SkipsSpace(p, 0, before);
    SkipsSpace(p, |before| + 1, space);
    ClosingBraceIsNoEntry(p, |before| + 1 + |space|);
  }

  /** The member a key selects: the first whose raw key bytes are equal. */
  function Lookup(items: Items, key: seq<byte>): Option<Value>
    requires ItemsOk(items, Object)
    decreases items
  {
    if items.item.tag.key == key then Some(items.item.value)
    else if items.More? then Lookup(items.rest, key)
    else None
  }

  lemma {:induction false} FindIsLookup(items: Items, key: seq<byte>)
    requires ItemsOk(items, Object)
    ensures Find(EntriesOf(items), key) ==
      match Lookup(items, key)
      case None => None
      case Some(v) => Some(Print(v))
    decreases items
  {
    hide Print, ItemOk;
    match items
    case Last(it) =>
      assert [EntryOf(it)][1..] == [];
    case More(it, rest) =>
      FindIsLookup(rest, key);
      assert ([EntryOf(it)] + EntriesOf(rest))[1..] == EntriesOf(rest);
  }

  /** `json_raw` on a printed object: the printed bytes of the first member with that raw key. */
  lemma RawFieldExact(before: seq<byte>, items: Items, after: seq<byte>, key: seq<byte>)
    requires AllSpace(before) && ItemsOk(items, Object)
    ensures Find(Entries(Document(before, items, after)), key) ==
      match Lookup(items, key)
      case None => None
      case Some(v) => Some(Print(v))
  {
    ScansExactly(before, items, after);
    FindIsLookup(items, key);
  }
}

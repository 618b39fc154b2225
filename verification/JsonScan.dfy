/**
 * The lenient JSON scanner of src/voice_client.rs: loops over byte indices, proved against
 * recursive descriptions of the same walks. Every loop ends and every index is in range on any
 * byte sequence.
 */
module JsonScan {
  import opened Bytes
  import opened Options

  const QUOTE: byte := 34
  const BACKSLASH: byte := 92
  const LBRACE: byte := 123
  const RBRACE: byte := 125
  const LBRACKET: byte := 91
  const RBRACKET: byte := 93
  const COLON: byte := 58
  const COMMA: byte := 44

  const TRUE: seq<byte> := [116, 114, 117, 101]
  const FALSE: seq<byte> := [102, 97, 108, 115, 101]
  const NULL: seq<byte> := [110, 117, 108, 108]

  predicate IsSpace(b: byte) {
    b == 32 || b == 9 || b == 13 || b == 10
  }

  predicate IsNumberByte(b: byte) {
    48 <= b <= 57 || b == 45 || b == 43 || b == 46 || b == 101 || b == 69
  }

  predicate StartsWith(p: seq<byte>, i: nat, word: seq<byte>) {
    i + |word| <= |p| && p[i..i + |word|] == word
  }

  // ---------- the walks ----------

  function SkipSpace(p: seq<byte>, i: nat): (r: Option<nat>)
    ensures r.Some? ==> i <= r.value < |p| && !IsSpace(p[r.value])
    decreases |p| - i
  {
    if i >= |p| then None else if IsSpace(p[i]) then SkipSpace(p, i + 1) else Some(i)
  }

  /** From inside a string at j: just past the closing quote. An escape skips two bytes. */
  function StringEnd(p: seq<byte>, j: nat): (r: Option<nat>)
    ensures r.Some? ==> j < r.value <= |p| && p[r.value - 1] == QUOTE
    decreases |p| - j
  {
    if j >= |p| then None
    else if p[j] == BACKSLASH then StringEnd(p, j + 2)
    else if p[j] == QUOTE then Some(j + 1)
    else StringEnd(p, j + 1)
  }

  function ClosingOf(open: byte): byte {
    if open == LBRACE then RBRACE else RBRACKET
  }

  /** Bracket matching from j with `depth` brackets of the kind `open` already open. */
  function NestedEnd(p: seq<byte>, j: nat, depth: nat, open: byte): (r: Option<nat>)
    requires depth > 0
    ensures r.Some? ==> j < r.value <= |p|
    decreases |p| - j
  {
    if j >= |p| then None
    else if p[j] == QUOTE then
      match StringEnd(p, j + 1)
      case None => None
      case Some(e) => NestedEnd(p, e, depth, open)
    else if p[j] == open then NestedEnd(p, j + 1, depth + 1, open)
    else if p[j] == ClosingOf(open) then
      if depth == 1 then Some(j + 1) else NestedEnd(p, j + 1, depth - 1, open)
    else NestedEnd(p, j + 1, depth, open)
  }

  function NumberEnd(p: seq<byte>, j: nat): (r: nat)
    requires j <= |p|
    ensures j <= r <= |p|
    decreases |p| - j
  {
    if j < |p| && IsNumberByte(p[j]) then NumberEnd(p, j + 1) else j
  }

  function ValueEnd(p: seq<byte>, i: nat): (r: Option<nat>)
    ensures r.Some? ==> i < r.value <= |p|
  {
    if i >= |p| then None
    else if p[i] == QUOTE then StringEnd(p, i + 1)
    else if p[i] == LBRACE || p[i] == LBRACKET then NestedEnd(p, i + 1, 1, p[i])
    else if p[i] == TRUE[0] then if StartsWith(p, i, TRUE) then Some(i + 4) else None
    else if p[i] == FALSE[0] then if StartsWith(p, i, FALSE) then Some(i + 5) else None
    else if p[i] == NULL[0] then if StartsWith(p, i, NULL) then Some(i + 4) else None
    else if NumberEnd(p, i) > i then Some(NumberEnd(p, i)) else None
  }

  /** One visited entry: the key's bytes between its quotes, and the value's bytes. */
  datatype Entry = Entry(key: seq<byte>, value: seq<byte>)

  /** Scan one entry whose key starts at j: the entry and where it ends. */
  function OneEntry(p: seq<byte>, j: nat): (r: Option<(Entry, nat)>)
    ensures r.Some? ==> j < r.value.1 <= |p|
  {
    if j >= |p| || p[j] != QUOTE then None else
      match StringEnd(p, j + 1)
      case None => None
      case Some(end) =>
        match SkipSpace(p, end)
        case None => None
        case Some(k) =>
          if p[k] != COLON then None else
            match SkipSpace(p, k + 1)
            case None => None
            case Some(v0) =>
              match ValueEnd(p, v0)
              case None => None
              case Some(vend) => Some((Entry(p[j + 1..end - 1], p[v0..vend]), vend))
  }

  /** The entries visited from i on, just after `{` or a comma, up to the first fault or the end. */
  function EntriesFrom(p: seq<byte>, i: nat): seq<Entry>
    decreases |p| - i
  {
    match SkipSpace(p, i)
    case None => []
    case Some(j) =>
      match OneEntry(p, j)
      case None => []
      case Some((entry, vend)) =>
        match SkipSpace(p, vend)
        case Some(k) => [entry] + (if p[k] == COMMA then EntriesFrom(p, k + 1) else [])
        case None => [entry]
  }

  function Entries(p: seq<byte>): seq<Entry> {
    match SkipSpace(p, 0)
    case None => []
    case Some(i) => if p[i] == LBRACE then EntriesFrom(p, i + 1) else []
  }

  /** The value of the first entry with this key. */
  function Find(entries: seq<Entry>, key: seq<byte>): Option<seq<byte>> {
    if entries == [] then None
    else if entries[0].key == key then Some(entries[0].value)
    else Find(entries[1..], key)
  }

  /** Of several entries with one key it is the first that counts. */
  lemma {:induction false} FindIsFirst(entries: seq<Entry>, key: seq<byte>)
    ensures Find(entries, key).None? <==> forall i :: 0 <= i < |entries| ==> entries[i].key != key
    ensures Find(entries, key).Some? ==>
      exists i :: 0 <= i < |entries| && entries[i] == Entry(key, Find(entries, key).value)
                  && forall j :: 0 <= j < i ==> entries[j].key != key
  {
    if entries == [] {
    } else if entries[0].key == key {
      assert entries[0] == Entry(key, entries[0].value);
    } else {
      var rest := entries[1..];
      FindIsFirst(rest, key);
      assert forall i :: 1 <= i < |entries| ==> entries[i] == rest[i - 1];
      if Find(rest, key).Some? {
        var i :| 0 <= i < |rest| && rest[i] == Entry(key, Find(rest, key).value)
          && forall j :: 0 <= j < i ==> rest[j].key != key;
        assert entries[i + 1] == rest[i];
      }
    }
  }

  // ---------- the loops ----------

  method SkipWs(p: seq<byte>, i0: nat) returns (r: Option<nat>)
    ensures r == SkipSpace(p, i0)
  {
    var i := i0;
    while i < |p|
      invariant SkipSpace(p, i0) == SkipSpace(p, i)
    {
      if !IsSpace(p[i]) {
        return Some(i);
      }
      i := i + 1;
    }
    return None;
  }

  /** `scan_string` at the opening quote: the bytes between the quotes, and the end. */
  method ScanString(p: seq<byte>, i: nat) returns (r: Option<(seq<byte>, nat)>)
    ensures r == if i >= |p| || p[i] != QUOTE || StringEnd(p, i + 1).None? then None
                 else Some((p[i + 1..StringEnd(p, i + 1).value - 1], StringEnd(p, i + 1).value))
  {
    if i >= |p| || p[i] != QUOTE {
      return None;
    }
    var j := i + 1;
    while j < |p|
      invariant i < j && StringEnd(p, i + 1) == StringEnd(p, j)
      decreases |p| - j
    {
      if p[j] == BACKSLASH {
        j := j + 2;
      } else if p[j] == QUOTE {
        return Some((p[i + 1..j], j + 1));
      } else {
        j := j + 1;
      }
    }
    return None;
  }

  /** `scan_nested` at an opening bracket. The depth never goes below zero. */
  method ScanNested(p: seq<byte>, i: nat) returns (r: Option<nat>)
    requires i < |p| && (p[i] == LBRACE || p[i] == LBRACKET)
    ensures r == NestedEnd(p, i + 1, 1, p[i])
  {
    var open := p[i];
    var close := if open == LBRACE then RBRACE else RBRACKET;
    var depth: nat := 0;
    var j := i;
    while j < |p|
      invariant i <= j && (j == i ==> depth == 0) && (j > i ==> depth > 0)
      invariant j > i ==> NestedEnd(p, i + 1, 1, open) == NestedEnd(p, j, depth, open)
      decreases |p| - j
    {
      if p[j] == QUOTE {
        var s := ScanString(p, j);
        if s.None? {
          return None;
        }
        j := s.value.1 - 1;
      } else if p[j] == open {
        depth := depth + 1;
      } else if p[j] == close {
        depth := depth - 1;
        if depth == 0 {
          return Some(j + 1);
        }
      }
      j := j + 1;
    }
    return None;
  }

  method ScanValue(p: seq<byte>, i: nat) returns (r: Option<nat>)
    ensures r == ValueEnd(p, i)
  {
    if i >= |p| {
      return None;
    }
    if p[i] == QUOTE {
      var s := ScanString(p, i);
      return if s.Some? then Some(s.value.1) else None;
    } else if p[i] == LBRACE || p[i] == LBRACKET {
      r := ScanNested(p, i);
    } else if p[i] == TRUE[0] {
      return if StartsWith(p, i, TRUE) then Some(i + 4) else None;
    } else if p[i] == FALSE[0] {
      return if StartsWith(p, i, FALSE) then Some(i + 5) else None;
    } else if p[i] == NULL[0] {
      return if StartsWith(p, i, NULL) then Some(i + 4) else None;
    } else {
      var j := i;
      while j < |p| && IsNumberByte(p[j])
        invariant i <= j <= |p| && NumberEnd(p, i) == NumberEnd(p, j)
      {
        j := j + 1;
      }
      return if j > i then Some(j) else None;
    }
  }

  /** The part of `for_each_entry`'s loop body that reads a key, a colon and a value. */
  method ScanEntry(p: seq<byte>, j: nat) returns (r: Option<(Entry, nat)>)
    ensures r == OneEntry(p, j)
  {
    hide SkipSpace, StringEnd, ValueEnd;
    var s := ScanString(p, j);
    if s.None? {
      return None;
    }
    var k := SkipWs(p, s.value.1);
    if k.None? || p[k.value] != COLON {
      return None;
    }
    var v0 := SkipWs(p, k.value + 1);
    if v0.None? {
      return None;
    }
    var vend := ScanValue(p, v0.value);
    if vend.None? {
      return None;
    }
    return Some((Entry(s.value.0, p[v0.value..vend.value]), vend.value));
  }

  /** `for_each_entry` driven by `json_raw`'s visitor, which stops at the first matching key. */
  method JsonRaw(p: seq<byte>, key: seq<byte>) returns (found: Option<seq<byte>>)
    ensures found == Find(Entries(p), key)
  {
    hide SkipSpace, OneEntry, Entries, EntriesFrom, Find;
    EntriesStart(p, key);
    var start := SkipWs(p, 0);
    if start.None? || p[start.value] != LBRACE {
      return None;
    }
    var i := start.value + 1;
    while true
      invariant Find(Entries(p), key) == Find(EntriesFrom(p, i), key)
      decreases |p| - i
    {
      var j := SkipWs(p, i);
      if j.None? {
        NoMoreEntries(p, i, key);
        return None;
      }
      if p[j.value] == RBRACE {
        ClosingBraceIsNoEntry(p, j.value);
        NoMoreEntries(p, i, key);
        return None;
      }
      var e := ScanEntry(p, j.value);
      if e.None? {
        NoMoreEntries(p, i, key);
        return None;
      }
      var (entry, vend) := e.value;
      var k := SkipWs(p, vend);
      FindUnfolds(p, i, key);
      if entry.key == key {
        return Some(entry.value);
      }
      if k.None? || p[k.value] != COMMA {
        return None;
      }
      i := k.value + 1;
    }
  }

  lemma EntriesStart(p: seq<byte>, key: seq<byte>)
    ensures var start := SkipSpace(p, 0);
            Find(Entries(p), key) ==
              if start.None? || p[start.value] != LBRACE then None else Find(EntriesFrom(p, start.value + 1), key)
  {
    hide SkipSpace, OneEntry, EntriesFrom;
  }

  lemma NoMoreEntries(p: seq<byte>, i: nat, key: seq<byte>)
    requires SkipSpace(p, i).None? || OneEntry(p, SkipSpace(p, i).value).None?
    ensures Find(EntriesFrom(p, i), key).None?
  {
    hide SkipSpace, OneEntry;
  }

  lemma ClosingBraceIsNoEntry(p: seq<byte>, j: nat)
    requires j < |p| && p[j] == RBRACE
    ensures OneEntry(p, j).None?
  {
  }

  /** The entries from i on are the one there and those after its comma. */
  lemma EntriesUnfold(p: seq<byte>, i: nat)
    requires SkipSpace(p, i).Some? && OneEntry(p, SkipSpace(p, i).value).Some?
    ensures var (entry, vend) := OneEntry(p, SkipSpace(p, i).value).value;
            var k := SkipSpace(p, vend);
            EntriesFrom(p, i) ==
              if k.None? then [entry]
              else [entry] + (if p[k.value] == COMMA then EntriesFrom(p, k.value + 1) else [])
  {
    hide SkipSpace, OneEntry;
  }

  /** Looking a key up among the entries from i on, one entry at a time. */
  lemma FindUnfolds(p: seq<byte>, i: nat, key: seq<byte>)
    requires SkipSpace(p, i).Some? && OneEntry(p, SkipSpace(p, i).value).Some?
    ensures var (entry, vend) := OneEntry(p, SkipSpace(p, i).value).value;
            var k := SkipSpace(p, vend);
            Find(EntriesFrom(p, i), key) ==
              if entry.key == key then Some(entry.value)
              else if k.Some? && p[k.value] == COMMA then Find(EntriesFrom(p, k.value + 1), key)
              else None
  {
    hide SkipSpace, OneEntry;
    var (entry, vend) := OneEntry(p, SkipSpace(p, i).value).value;
    var k := SkipSpace(p, vend);
    var rest := if k.Some? && p[k.value] == COMMA then EntriesFrom(p, k.value + 1) else [];
    assert ([entry] + rest)[1..] == rest;
    assert [entry][1..] == [];
  }

  // ---------- values cannot be mistaken for whitespace ----------

  /** A scanned value neither begins nor ends with whitespace, so trimming it changes nothing. */
  lemma ValueIsTrimmed(p: seq<byte>, i: nat)
    requires ValueEnd(p, i).Some?
    ensures !IsSpace(p[i]) && !IsSpace(p[ValueEnd(p, i).value - 1])
  {
    if p[i] == LBRACE || p[i] == LBRACKET {
      NestedEndsWithBracket(p, i + 1, 1, p[i]);
    } else if p[i] != QUOTE && p[i] != TRUE[0] && p[i] != FALSE[0] && p[i] != NULL[0] {
      NumberEndsWithDigit(p, i);
    } else if p[i] == TRUE[0] {
      assert p[i..i + 4][3] == TRUE[3];
    } else if p[i] == FALSE[0] {
      assert p[i..i + 5][4] == FALSE[4];
    } else if p[i] == NULL[0] {
      assert p[i..i + 4][3] == NULL[3];
    }
  }

  lemma {:induction false} NestedEndsWithBracket(p: seq<byte>, j: nat, depth: nat, open: byte)
    requires depth > 0 && NestedEnd(p, j, depth, open).Some?
    ensures p[NestedEnd(p, j, depth, open).value - 1] == ClosingOf(open)
    decreases |p| - j
  {
    if p[j] == QUOTE {
      NestedEndsWithBracket(p, StringEnd(p, j + 1).value, depth, open);
    } else if p[j] == open {
      NestedEndsWithBracket(p, j + 1, depth + 1, open);
    } else if p[j] == ClosingOf(open) {
      if depth > 1 {
        NestedEndsWithBracket(p, j + 1, depth - 1, open);
      }
    } else {
      NestedEndsWithBracket(p, j + 1, depth, open);
    }
  }

  lemma {:induction false} NumberEndsWithDigit(p: seq<byte>, j: nat)
    requires j <= |p|
    ensures NumberEnd(p, j) > j ==> IsNumberByte(p[j]) && IsNumberByte(p[NumberEnd(p, j) - 1])
    decreases |p| - j
  {
    if j < |p| && IsNumberByte(p[j]) {
      NumberEndsWithDigit(p, j + 1);
    }
  }
}

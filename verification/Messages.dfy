/**
 * Server messages and the speech request of src/voice_client.rs: field access by raw key, the
 * event a message stands for, and what a request says when it is read back.
 */
module Messages {
  import opened Bytes
  import opened JsonScan
  import opened Options
  import opened JsonTree
  import opened JsonText
  import opened Numerals
  import Utf8

  datatype ServerEvent =
    | ServerReady
    | SessionReady
    | VadSpeaking(speaking: bool)
    | AsrResult(text: string)
    | AssistantDelta(text: string)
    | AudioStart(rate: Option<u32>)
    | AudioChunk(data: string)
    | AudioDone
    | AssistantCompleted(text: string)
    | AssistantError(message: string)
    | InterruptAck
    | SessionClosed
    | AudioFile(path: string)
    | Error(message: string)
    | Unknown

  // The key names, as bytes.
  const TYPE: seq<byte> := [116, 121, 112, 101]
  const SPEAKING: seq<byte> := [115, 112, 101, 97, 107, 105, 110, 103]
  const TEXT: seq<byte> := [116, 101, 120, 116]
  const SAMPLE_RATE: seq<byte> := [115, 97, 109, 112, 108, 101, 95, 114, 97, 116, 101]
  const DATA: seq<byte> := [100, 97, 116, 97]
  const MESSAGE: seq<byte> := [109, 101, 115, 115, 97, 103, 101]
  const ERROR: seq<byte> := [101, 114, 114, 111, 114]
  const PATH: seq<byte> := [112, 97, 116, 104]

  // ---------- unsigned numbers ----------

  predicate IsDigit(b: byte) {
    48 <= b <= 57
  }

  predicate AllDigits(s: seq<byte>) {
    forall i :: 0 <= i < |s| ==> IsDigit(s[i])
  }

  function DigitsValue(s: seq<byte>): nat
    requires AllDigits(s)
  {
    if s == [] then 0 else DigitsValue(s[..|s| - 1]) * 10 + (s[|s| - 1] - 48)
  }

  /** `str::parse::<u32>`: digits, perhaps after a plus sign, without overflow. */
  function ParseU32(s: seq<byte>): Option<u32> {
    var d := if |s| > 1 && s[0] == 43 then s[1..] else s;
    if d == [] || !AllDigits(d) || DigitsValue(d) >= 0x1_0000_0000 then None
    else Some(DigitsValue(d))
  }

  lemma {:induction false} DecimalReads(n: nat)
    ensures AllDigits(Utf8.Encode(Decimal(n))) && DigitsValue(Utf8.Encode(Decimal(n))) == n
    ensures Utf8.Encode(Decimal(n)) != []
  {
    hide Utf8.Encode, Utf8.EncodeChar;
    var last := [(48 + n % 10) as char];
    EncodeAscii(last);
    EncodeAscii(Decimal(n));
    var s := Utf8.Encode(Decimal(n));
    if n >= 10 {
      DecimalReads(n / 10);
      Utf8.EncodeConcat(Decimal(n / 10), last);
    } else {
      assert s[..0] == [];
    }
    assert s[..|s| - 1] == if n < 10 then [] else Utf8.Encode(Decimal(n / 10));
    assert s[|s| - 1] == 48 + n % 10;
  }

  lemma ParseDecimal(n: u32)
    ensures ParseU32(Utf8.Encode(Decimal(n))) == Some(n)
  {
    hide Utf8.Encode, DigitsValue, Decimal;
    DecimalReads(n);
  }

  /** A number too large for 32 bits is none. */
  lemma DecimalOverflows(n: nat)
    requires n >= 0x1_0000_0000
    ensures ParseU32(Utf8.Encode(Decimal(n))).None?
  {
    hide Utf8.Encode, DigitsValue, Decimal;
    DecimalReads(n);
  }

  /** A plus sign and leading zeros do not count. */
  lemma {:induction false} PlusAndZerosDoNotCount(d: seq<byte>)
    requires d != [] && AllDigits(d)
    ensures ParseU32([43] + d) == ParseU32(d) == ParseU32([48] + d)
  {
    hide DigitsValue;
    assert ([43] + d)[1..] == d;
    assert AllDigits([48] + d);
    ZeroInFront(d);
  }

  lemma {:induction false} ZeroInFront(d: seq<byte>)
    requires AllDigits(d) && AllDigits([48] + d)
    ensures DigitsValue([48] + d) == DigitsValue(d)
  {
    var z := [48] + d;
    if d == [] {
      assert z[..0] == [];
    } else {
      assert z[..|z| - 1] == [48] + d[..|d| - 1];
      ZeroInFront(d[..|d| - 1]);
    }
  }

  /** Only digits, perhaps after a plus sign, are a number. */
  lemma OnlyDigitsAreNumbers(s: seq<byte>)
    requires ParseU32(s).Some?
    ensures s != [] && forall i :: 0 <= i < |s| ==> 48 <= s[i] <= 57 || (i == 0 && s[0] == 43 && |s| > 1)
  {
    hide DigitsValue;
    var d := if |s| > 1 && s[0] == 43 then s[1..] else s;
    forall i | 0 <= i < |s|
      ensures 48 <= s[i] <= 57 || (i == 0 && s[0] == 43 && |s| > 1)
    {
      if d == s {
        assert IsDigit(d[i]);
      } else if i > 0 {
        assert IsDigit(d[i - 1]);
      }
    }
  }

  // ---------- fields ----------

  function FieldString(p: seq<byte>, key: seq<byte>): Option<string> {
    FoundStringIsClean(p, key);
    match Find(Entries(p), key)
    case None => None
    case Some(raw) =>
      if raw == [] || raw[0] != QUOTE then None else Some(Unescape(raw[1..|raw| - 1]))
  }

  /**
   * The raw value is already trimmed (JsonScan.ValueIsTrimmed), and bytes that are not UTF-8
   * are no digits, so reading it as a number is all that is left of src/voice_client.rs:511-515.
   */
  function FieldU32(p: seq<byte>, key: seq<byte>): Option<u32> {
    match Find(Entries(p), key)
    case None => None
    case Some(raw) => ParseU32(raw)
  }

  function BoolOfBytes(raw: seq<byte>): Option<bool> {
    if raw == TRUE then Some(true) else if raw == FALSE then Some(false) else None
  }

  function FieldBool(p: seq<byte>, key: seq<byte>): Option<bool> {
    match Find(Entries(p), key)
    case None => None
    case Some(raw) => BoolOfBytes(raw)
  }

  method JsonString(p: seq<byte>, key: seq<byte>) returns (r: Option<string>)
    ensures r == FieldString(p, key)
  {
    hide Entries, Find, Unescape;
    FoundStringIsClean(p, key);
    var raw := JsonRaw(p, key);
    if raw.None? || raw.value == [] || raw.value[0] != QUOTE {
      return None;
    }
    var t := UnescapeBytes(raw.value[1..|raw.value| - 1]);
    return Some(t);
  }

  method JsonU32(p: seq<byte>, key: seq<byte>) returns (r: Option<u32>)
    ensures r == FieldU32(p, key)
  {
    var raw := JsonRaw(p, key);
    r := if raw.None? then None else ParseU32(raw.value);
  }

  method JsonBool(p: seq<byte>, key: seq<byte>) returns (r: Option<bool>)
    ensures r == FieldBool(p, key)
  {
    var raw := JsonRaw(p, key);
    r := if raw.None? then None else BoolOfBytes(raw.value);
  }

  // ---------- events ----------

  /** The fields an event may need, each absent or read. */
  datatype Fields = Fields(
    speaking: Option<bool>, text: Option<string>, rate: Option<u32>, data: Option<string>,
    message: Option<string>, error: Option<string>, path: Option<string>)

  function OrEmpty(s: Option<string>): string {
    if s.Some? then s.value else ""
  }

  function EventFor(ty: Option<string>, f: Fields): ServerEvent {
    match ty
    case None => Unknown
    case Some(t) =>
      if t == "server.ready" then ServerReady
      else if t == "session.ready" then SessionReady
      else if t == "vad.speaking" then VadSpeaking(f.speaking == Some(true))
      else if t == "asr.result" then AsrResult(OrEmpty(f.text))
      else if t == "assistant.delta" then AssistantDelta(OrEmpty(f.text))
      else if t == "audio.start" then AudioStart(f.rate)
      else if t == "audio.chunk" then AudioChunk(OrEmpty(f.data))
      else if t == "audio.done" then AudioDone
      else if t == "assistant.completed" then AssistantCompleted(OrEmpty(f.text))
      else if t == "assistant.error" then AssistantError(OrEmpty(f.message))
      else if t == "interrupt.ack" then InterruptAck
      else if t == "session.closed" then SessionClosed
      else if t == "audio.file" then AudioFile(OrEmpty(f.path))
      else if t == "error" || t == "asr.error" then
        Error(if f.message.Some? then f.message.value else OrEmpty(f.error))
      else Unknown
  }

  function FieldsOf(p: seq<byte>): Fields {
    Fields(FieldBool(p, SPEAKING), FieldString(p, TEXT), FieldU32(p, SAMPLE_RATE), FieldString(p, DATA),
           FieldString(p, MESSAGE), FieldString(p, ERROR), FieldString(p, PATH))
  }

  function Message(p: seq<byte>): ServerEvent {
    EventFor(FieldString(p, TYPE), FieldsOf(p))
  }

  /** `parse_server_message`, on any bytes at all. */
  method ParseServerMessage(p: seq<byte>) returns (ev: ServerEvent)
    ensures ev == Message(p)
  {
    hide FieldString, FieldU32, FieldBool;
    var ty := JsonString(p, TYPE);
    if ty.None? {
      return Unknown;
    }
    var t := ty.value;
    if t == "server.ready" {
      return ServerReady;
    } else if t == "session.ready" {
      return SessionReady;
    } else if t == "vad.speaking" {
      var b := JsonBool(p, SPEAKING);
      return VadSpeaking(b.Some? && b.value);
    } else if t == "asr.result" {
      var s := JsonString(p, TEXT);
      return AsrResult(OrEmpty(s));
    } else if t == "assistant.delta" {
      var s := JsonString(p, TEXT);
      return AssistantDelta(OrEmpty(s));
    } else if t == "audio.start" {
      var r := JsonU32(p, SAMPLE_RATE);
      return AudioStart(r);
    } else if t == "audio.chunk" {
      var s := JsonString(p, DATA);
      return AudioChunk(OrEmpty(s));
    } else if t == "audio.done" {
      return AudioDone;
    }
    ev := ParseOther(p, t);
  }

  /** The remaining message types. */
  method ParseOther(p: seq<byte>, t: string) returns (ev: ServerEvent)
    requires t != "server.ready" && t != "session.ready" && t != "vad.speaking" && t != "asr.result"
    requires t != "assistant.delta" && t != "audio.start" && t != "audio.chunk" && t != "audio.done"
    ensures ev == EventFor(Some(t), FieldsOf(p))
  {
    hide FieldString, FieldU32, FieldBool;
    if t == "assistant.completed" {
      var s := JsonString(p, TEXT);
      return AssistantCompleted(OrEmpty(s));
    } else if t == "assistant.error" {
      var s := JsonString(p, MESSAGE);
      return AssistantError(OrEmpty(s));
    } else if t == "interrupt.ack" {
      return InterruptAck;
    } else if t == "session.closed" {
      return SessionClosed;
    } else if t == "audio.file" {
      var s := JsonString(p, PATH);
      return AudioFile(OrEmpty(s));
    } else if t == "error" || t == "asr.error" {
      var s := JsonString(p, MESSAGE);
      if s.None? {
        s := JsonString(p, ERROR);
      }
      return Error(OrEmpty(s));
    }
    return Unknown;
  }

  // ---------- messages as trees ----------

  function StringOf(v: Option<Value>): Option<string>
    requires v.Some? ==> WellFormed(v.value)
  {
    if v.Some? && v.value.Str? then
      RawIsClean(v.value.raw);
      Some(Unescape(v.value.raw))
    else None
  }

  function U32Of(v: Option<Value>): Option<u32> {
    if v.Some? && v.value.Number? then ParseU32(v.value.lexeme) else None
  }

  function BoolOf(v: Option<Value>): Option<bool> {
    if v == Some(Literal(TRUE)) then Some(true)
    else if v == Some(Literal(FALSE)) then Some(false)
    else None
  }

  lemma {:induction false} LookupWellFormed(items: Items, key: seq<byte>)
    requires ItemsOk(items, Object)
    ensures Lookup(items, key).Some? ==> WellFormed(Lookup(items, key).value)
    decreases items
  {
    ItemValueOk(items.item);
    if items.More? {
      LookupWellFormed(items.rest, key);
    }
  }

  lemma ItemValueOk(it: Item)
    requires ItemOk(it)
    ensures WellFormed(it.value)
  {
  }

  function StringMember(items: Items, key: seq<byte>): Option<string>
    requires ItemsOk(items, Object)
  {
    LookupWellFormed(items, key);
    StringOf(Lookup(items, key))
  }

  function MembersOf(items: Items): Fields
    requires ItemsOk(items, Object)
  {
    Fields(BoolOf(Lookup(items, SPEAKING)), StringMember(items, TEXT), U32Of(Lookup(items, SAMPLE_RATE)),
           StringMember(items, DATA), StringMember(items, MESSAGE), StringMember(items, ERROR),
           StringMember(items, PATH))
  }

  /** The event an object stands for, read off its tree: members by first raw key. */
  function EventOf(items: Items): ServerEvent
    requires ItemsOk(items, Object)
  {
    EventFor(StringMember(items, TYPE), MembersOf(items))
  }

  lemma PrintedStart(v: Value)
    requires WellFormed(v)
    ensures Print(v) != []
    ensures Print(v)[0] == QUOTE <==> v.Str?
    ensures !v.Number? ==> !IsDigit(Print(v)[0]) && Print(v)[0] != 43
    ensures Print(v) == TRUE <==> v == Literal(TRUE)
    ensures Print(v) == FALSE <==> v == Literal(FALSE)
  {
    hide RawString, PrintItems, ItemsOk;
  }

  lemma StringFieldOfTree(before: seq<byte>, items: Items, after: seq<byte>, key: seq<byte>)
    requires AllSpace(before) && ItemsOk(items, Object)
    ensures FieldString(Document(before, items, after), key) == StringMember(items, key)
  {
    hide Document, Print, Entries, Unescape, WellFormed, ItemsOk, AllSpace, Find, Lookup;
    RawFieldExact(before, items, after, key);
    LookupWellFormed(items, key);
    FoundStringIsClean(Document(before, items, after), key);
    if Lookup(items, key).Some? {
      var v := Lookup(items, key).value;
      PrintedStart(v);
      if v.Str? {
        InsideQuotes(v);
      }
    }
  }

  lemma InsideQuotes(v: Value)
    requires v.Str?
    ensures |Print(v)| == |v.raw| + 2 && Print(v)[1..|Print(v)| - 1] == v.raw
  {
  }

  lemma OtherFieldsOfTree(before: seq<byte>, items: Items, after: seq<byte>, key: seq<byte>)
    requires AllSpace(before) && ItemsOk(items, Object)
    ensures FieldU32(Document(before, items, after), key) == U32Of(Lookup(items, key))
    ensures FieldBool(Document(before, items, after), key) == BoolOf(Lookup(items, key))
  {
    hide Document, Print, Entries, WellFormed, ItemsOk, AllSpace, Find, Lookup;
    RawFieldExact(before, items, after, key);
    LookupWellFormed(items, key);
    if Lookup(items, key).Some? {
      var v := Lookup(items, key).value;
      PrintedStart(v);
      if v.Number? {
        NumberPrint(v);
      } else {
        NoNumber(Print(v));
      }
    }
  }

  lemma NumberPrint(v: Value)
    requires v.Number?
    ensures Print(v) == v.lexeme
  {
  }

  lemma NoNumber(s: seq<byte>)
    requires s != [] && !IsDigit(s[0]) && s[0] != 43
    ensures ParseU32(s).None?
  {
  }

  /**
   * A message means what its tree says: for every object, printed with any whitespace, any key
   * order, unknown or repeated keys and arbitrarily nested values, the parse is the tree's event.
   */
  lemma MessageOfTree(before: seq<byte>, items: Items, after: seq<byte>)
    requires AllSpace(before) && ItemsOk(items, Object)
    ensures Message(Document(before, items, after)) == EventOf(items)
  {
    hide Document, FieldString, FieldU32, FieldBool, StringMember, U32Of, BoolOf, Lookup, EventFor, ItemsOk, AllSpace;
    StringFieldOfTree(before, items, after, TYPE);
    StringFieldOfTree(before, items, after, TEXT);
    StringFieldOfTree(before, items, after, DATA);
    StringFieldOfTree(before, items, after, MESSAGE);
    StringFieldOfTree(before, items, after, ERROR);
    StringFieldOfTree(before, items, after, PATH);
    OtherFieldsOfTree(before, items, after, SPEAKING);
    OtherFieldsOfTree(before, items, after, SAMPLE_RATE);
  }

  /** The message types there are. */
  const SESSION_TYPES: seq<string> :=
    ["server.ready", "session.ready", "vad.speaking", "interrupt.ack", "session.closed", "error", "asr.error"]
  const REPLY_TYPES: seq<string> :=
    ["asr.result", "assistant.delta", "audio.start", "audio.chunk", "audio.done", "assistant.completed",
     "assistant.error", "audio.file"]

  lemma SessionTypes(f: Fields)
    ensures EventFor(Some("server.ready"), f) == ServerReady && EventFor(Some("session.ready"), f) == SessionReady
    ensures EventFor(Some("vad.speaking"), f) == VadSpeaking(f.speaking == Some(true))
    ensures EventFor(Some("interrupt.ack"), f) == InterruptAck && EventFor(Some("session.closed"), f) == SessionClosed
    ensures forall ty :: ty == "error" || ty == "asr.error" ==>
      EventFor(Some(ty), f) == Error(OrEmpty(if f.message.Some? then f.message else f.error))
  {
  }

  lemma ReplyTypes(f: Fields)
    ensures EventFor(Some("asr.result"), f) == AsrResult(OrEmpty(f.text))
    ensures EventFor(Some("assistant.delta"), f) == AssistantDelta(OrEmpty(f.text))
    ensures EventFor(Some("assistant.completed"), f) == AssistantCompleted(OrEmpty(f.text))
    ensures EventFor(Some("assistant.error"), f) == AssistantError(OrEmpty(f.message))
    ensures EventFor(Some("audio.start"), f) == AudioStart(f.rate)
    ensures EventFor(Some("audio.chunk"), f) == AudioChunk(OrEmpty(f.data))
    ensures EventFor(Some("audio.done"), f) == AudioDone
    ensures EventFor(Some("audio.file"), f) == AudioFile(OrEmpty(f.path))
  {
  }

  lemma OtherTypes(ty: Option<string>, f: Fields)
    requires ty.Some? ==> ty.value !in SESSION_TYPES && ty.value !in REPLY_TYPES
    ensures EventFor(ty, f) == Unknown
  {
    assert forall i :: 0 <= i < 7 ==> SESSION_TYPES[i] in SESSION_TYPES;
    assert forall i :: 0 <= i < 8 ==> REPLY_TYPES[i] in REPLY_TYPES;
  }

  /** A member's text, empty if it is missing or no string. */
  function TextOf(items: Items, key: seq<byte>): string
    requires ItemsOk(items, Object)
  {
    var v := StringMember(items, key);
    if v.Some? then v.value else ""
  }

  /**
   * The event of every message about the session, whatever else the object holds. Only a literal
   * true is speaking, and an error of either kind without a message takes its text from the member
   * `error`.
   */
  lemma SessionMessageMeans(before: seq<byte>, items: Items, after: seq<byte>)
    requires AllSpace(before) && ItemsOk(items, Object)
    ensures var ev, ty := Message(Document(before, items, after)), StringMember(items, TYPE);
            && (ty == Some("server.ready") ==> ev == ServerReady)
            && (ty == Some("session.ready") ==> ev == SessionReady)
            && (ty == Some("vad.speaking") ==> ev == VadSpeaking(Lookup(items, SPEAKING) == Some(Literal(TRUE))))
            && (ty == Some("interrupt.ack") ==> ev == InterruptAck)
            && (ty == Some("session.closed") ==> ev == SessionClosed)
            && (ty == Some("error") || ty == Some("asr.error") ==>
                 ev == Error(TextOf(items, if StringMember(items, MESSAGE).Some? then MESSAGE else ERROR)))
  {
    hide Document, StringMember, U32Of, Lookup, ItemsOk, AllSpace, Message, EventFor;
    MessageOfTree(before, items, after);
    SessionTypes(MembersOf(items));
  }

  /**
   * And of every message about a reply. A missing text, data, path or message is empty, a missing
   * rate is left open.
   */
  lemma ReplyMessageMeans(before: seq<byte>, items: Items, after: seq<byte>)
    requires AllSpace(before) && ItemsOk(items, Object)
    ensures var ev, ty := Message(Document(before, items, after)), StringMember(items, TYPE);
            && (ty == Some("asr.result") ==> ev == AsrResult(TextOf(items, TEXT)))
            && (ty == Some("assistant.delta") ==> ev == AssistantDelta(TextOf(items, TEXT)))
            && (ty == Some("assistant.completed") ==> ev == AssistantCompleted(TextOf(items, TEXT)))
            && (ty == Some("assistant.error") ==> ev == AssistantError(TextOf(items, MESSAGE)))
            && (ty == Some("audio.start") ==> ev == AudioStart(U32Of(Lookup(items, SAMPLE_RATE))))
            && (ty == Some("audio.chunk") ==> ev == AudioChunk(TextOf(items, DATA)))
            && (ty == Some("audio.done") ==> ev == AudioDone)
            && (ty == Some("audio.file") ==> ev == AudioFile(TextOf(items, PATH)))
  {
    hide Document, StringMember, U32Of, BoolOf, Lookup, ItemsOk, AllSpace, Message, EventFor;
    MessageOfTree(before, items, after);
    ReplyTypes(MembersOf(items));
  }

  /** A type that is not listed, no type, or one that is no string is unknown. */
  lemma OtherMessagesAreUnknown(before: seq<byte>, items: Items, after: seq<byte>)
    requires AllSpace(before) && ItemsOk(items, Object)
    requires var ty := StringMember(items, TYPE);
             ty.Some? ==> ty.value !in SESSION_TYPES && ty.value !in REPLY_TYPES
    ensures Message(Document(before, items, after)) == Unknown
  {
    hide Document, StringMember, MembersOf, Lookup, ItemsOk, AllSpace, Message, EventFor;
    MessageOfTree(before, items, after);
    OtherTypes(StringMember(items, TYPE), MembersOf(items));
  }

  /** Nor does anything stand for an event that is not an object. */
  lemma OnlyObjectsAreEvents(before: seq<byte>, c: byte, after: seq<byte>)
    requires AllSpace(before) && !AllSpace([c]) && c != LBRACE
    ensures Message(before + [c] + after) == Unknown && Message(before) == Unknown
  {
    hide Entries, AllSpace;
    ScansObjectsOnly(before, c, after);
  }

  // ---------- every event, over the wire ----------

  function TextItem(key: seq<byte>, text: string): Item {
    Item([], Tag(key, [], []), Str(Utf8.Encode(Escape(text))), [])
  }

  /** The message type of each event. */
  function TypeName(ev: ServerEvent): string {
    match ev
    case ServerReady => "server.ready"
    case SessionReady => "session.ready"
    case VadSpeaking(_) => "vad.speaking"
    case AsrResult(_) => "asr.result"
    case AssistantDelta(_) => "assistant.delta"
    case AudioStart(_) => "audio.start"
    case AudioChunk(_) => "audio.chunk"
    case AudioDone => "audio.done"
    case AssistantCompleted(_) => "assistant.completed"
    case AssistantError(_) => "assistant.error"
    case InterruptAck => "interrupt.ack"
    case SessionClosed => "session.closed"
    case AudioFile(_) => "audio.file"
    case Error(_) => "error"
    case Unknown => ""
  }

  /** The member that carries an event's payload, if it has one. */
  function Payload(ev: ServerEvent): Option<Item> {
    match ev
    case VadSpeaking(b) => Some(Item([], Tag(SPEAKING, [], []), Literal(if b then TRUE else FALSE), []))
    case AsrResult(t) => Some(TextItem(TEXT, t))
    case AssistantDelta(t) => Some(TextItem(TEXT, t))
    case AudioStart(rate) =>
      if rate.Some? then Some(Item([], Tag(SAMPLE_RATE, [], []), Number(Utf8.Encode(Decimal(rate.value))), [])) else None
    case AudioChunk(t) => Some(TextItem(DATA, t))
    case AssistantCompleted(t) => Some(TextItem(TEXT, t))
    case AssistantError(t) => Some(TextItem(MESSAGE, t))
    case AudioFile(t) => Some(TextItem(PATH, t))
    case Error(t) => Some(TextItem(MESSAGE, t))
    case _ => None
  }

  /** The object a server announces an event with. */
  function Announce(ev: ServerEvent): Items {
    var first := TextItem(TYPE, TypeName(ev));
    match Payload(ev)
    case None => Last(first)
    case Some(it) => More(first, Last(it))
  }

  lemma TextItemReads(key: seq<byte>, text: string)
    requires RawString(key)
    ensures var it := TextItem(key, text); ItemOk(it) && it.tag == Tag(key, [], [])
    ensures StringOf(Some(TextItem(key, text).value)) == Some(text)
  {
    hide Utf8.Encode, Escape, Unescape, RawString;
    EscapedIsRaw(text);
    EscapeRoundTrip(text);
  }

  lemma AllKeysAreRaw()
    ensures RawString(TYPE) && RawString(SPEAKING) && RawString(TEXT) && RawString(SAMPLE_RATE)
    ensures RawString(DATA) && RawString(MESSAGE) && RawString(ERROR) && RawString(PATH)
  {
    hide RawString;
    PlainKey(TYPE);
    PlainKey(SPEAKING);
    PlainKey(TEXT);
    PlainKey(SAMPLE_RATE);
    PlainKey(DATA);
    PlainKey(MESSAGE);
    PlainKey(ERROR);
    PlainKey(PATH);
  }

  lemma PlainKey(key: seq<byte>)
    requires forall i :: 0 <= i < |key| ==> key[i] != BACKSLASH && key[i] != QUOTE
    ensures RawString(key)
  {
    assert RawString([]);
    RawPlain(key, []);
    assert key + [] == key;
  }

  lemma PayloadOk(ev: ServerEvent)
    ensures Payload(ev).Some? ==> ItemOk(Payload(ev).value) && Payload(ev).value.tag.Tag?
  {
    hide Utf8.Encode, Escape, Decimal, RawString, TextItem;
    AllKeysAreRaw();
    match ev
    case AsrResult(t) => TextItemReads(TEXT, t);
    case AssistantDelta(t) => TextItemReads(TEXT, t);
    case AudioStart(rate) =>
      if rate.Some? {
        DecimalReads(rate.value);
      }
    case AudioChunk(t) => TextItemReads(DATA, t);
    case AssistantCompleted(t) => TextItemReads(TEXT, t);
    case AssistantError(t) => TextItemReads(MESSAGE, t);
    case AudioFile(t) => TextItemReads(PATH, t);
    case Error(t) => TextItemReads(MESSAGE, t);
    case _ =>
  }

  lemma OneMember(a: Item, key: seq<byte>)
    requires ItemOk(a) && a.tag.Tag?
    ensures ItemsOk(Last(a), Object)
    ensures Lookup(Last(a), key) == if a.tag.key == key then Some(a.value) else None
  {
    hide ItemOk;
  }

  lemma TwoMembers(a: Item, b: Item, key: seq<byte>)
    requires ItemOk(a) && a.tag.Tag? && ItemOk(b) && b.tag.Tag?
    ensures ItemsOk(More(a, Last(b)), Object)
    ensures Lookup(More(a, Last(b)), key)
         == if a.tag.key == key then Some(a.value) else if b.tag.key == key then Some(b.value) else None
  {
    hide ItemOk;
    OneMember(b, key);
    assert ItemsOk(Last(b), Object);
  }

  /** Looking a key up in an announcement. */
  lemma AnnounceLookup(ev: ServerEvent, key: seq<byte>)
    ensures ItemsOk(Announce(ev), Object)
    ensures Payload(ev).Some? ==> Payload(ev).value.tag.Tag?
    ensures Lookup(Announce(ev), key)
         == if key == TYPE then Some(TextItem(TYPE, TypeName(ev)).value)
            else if Payload(ev).Some? && Payload(ev).value.tag.key == key then Some(Payload(ev).value.value)
            else None
  {
    hide Payload, ItemOk, ItemsOk, TypeName, Lookup, TextItem, RawString;
    var first := TextItem(TYPE, TypeName(ev));
    AllKeysAreRaw();
    TextItemReads(TYPE, TypeName(ev));
    PayloadOk(ev);
    if Payload(ev).Some? {
      TwoMembers(first, Payload(ev).value, key);
    } else {
      OneMember(first, key);
    }
  }

  /** The fields an announcement fills in. */
  function EventFields(ev: ServerEvent): Fields {
    var empty := Fields(None, None, None, None, None, None, None);
    match ev
    case VadSpeaking(b) => empty.(speaking := Some(b))
    case AsrResult(t) => empty.(text := Some(t))
    case AssistantDelta(t) => empty.(text := Some(t))
    case AudioStart(r) => empty.(rate := r)
    case AudioChunk(t) => empty.(data := Some(t))
    case AssistantCompleted(t) => empty.(text := Some(t))
    case AssistantError(t) => empty.(message := Some(t))
    case AudioFile(t) => empty.(path := Some(t))
    case Error(t) => empty.(message := Some(t))
    case _ => empty
  }

  lemma TypeNameReads(ev: ServerEvent, f: Fields)
    requires ev != Unknown && f == EventFields(ev)
    ensures EventFor(Some(TypeName(ev)), f) == ev
  {
  }

  lemma KeysDiffer()
    ensures TYPE != SPEAKING && TYPE != TEXT && TYPE != SAMPLE_RATE && TYPE != DATA && TYPE != MESSAGE && TYPE != ERROR && TYPE != PATH
    ensures SPEAKING != TEXT && SPEAKING != SAMPLE_RATE && SPEAKING != DATA && SPEAKING != MESSAGE && SPEAKING != ERROR && SPEAKING != PATH
    ensures TEXT != SAMPLE_RATE && TEXT != DATA && TEXT != MESSAGE && TEXT != ERROR && TEXT != PATH
    ensures SAMPLE_RATE != DATA && SAMPLE_RATE != MESSAGE && SAMPLE_RATE != ERROR && SAMPLE_RATE != PATH
    ensures DATA != MESSAGE && DATA != ERROR && DATA != PATH
    ensures MESSAGE != ERROR && MESSAGE != PATH && ERROR != PATH
  {
    assert TYPE[0] == 116 && TEXT[1] == 101 && DATA[0] == 100 && PATH[0] == 112;
  }

  /** The payload member of an announcement whose payload is text. */
  function TextPayload(ev: ServerEvent): Option<(seq<byte>, string)> {
    match ev
    case AsrResult(t) => Some((TEXT, t))
    case AssistantDelta(t) => Some((TEXT, t))
    case AudioChunk(t) => Some((DATA, t))
    case AssistantCompleted(t) => Some((TEXT, t))
    case AssistantError(t) => Some((MESSAGE, t))
    case AudioFile(t) => Some((PATH, t))
    case Error(t) => Some((MESSAGE, t))
    case _ => None
  }

  lemma StringMemberReads(ev: ServerEvent, key: seq<byte>)
    requires key != SPEAKING && key != SAMPLE_RATE
    ensures ItemsOk(Announce(ev), Object)
    ensures StringMember(Announce(ev), key)
         == if key == TYPE then Some(TypeName(ev))
            else if TextPayload(ev).Some? && TextPayload(ev).value.0 == key then Some(TextPayload(ev).value.1)
            else None
  {
    hide Utf8.Encode, Escape, Unescape, Decimal, RawString, WellFormed, Lookup, ItemsOk, Announce, TextItem, TypeName;
    AllKeysAreRaw();
    AnnounceLookup(ev, key);
    TextItemReads(TYPE, TypeName(ev));
    if TextPayload(ev).Some? {
      TextItemReads(TextPayload(ev).value.0, TextPayload(ev).value.1);
    }
  }

  lemma OtherMembersRead(ev: ServerEvent)
    ensures ItemsOk(Announce(ev), Object)
    ensures BoolOf(Lookup(Announce(ev), SPEAKING)) == if ev.VadSpeaking? then Some(ev.speaking) else None
    ensures U32Of(Lookup(Announce(ev), SAMPLE_RATE)) == if ev.AudioStart? then ev.rate else None
  {
    hide Utf8.Encode, Escape, Decimal, RawString, WellFormed, Lookup, ItemsOk, Announce, TextItem, TypeName, ParseU32;
    AllKeysAreRaw();
    KeysDiffer();
    AnnounceLookup(ev, SPEAKING);
    AnnounceLookup(ev, SAMPLE_RATE);
    if TextPayload(ev).Some? {
      TextItemReads(TextPayload(ev).value.0, TextPayload(ev).value.1);
    } else if ev.AudioStart? && ev.rate.Some? {
      ParseDecimal(ev.rate.value);
    }
  }

  /** An announcement's tree stands for the event it announces. */
  lemma AnnouncementReads(ev: ServerEvent)
    requires ev != Unknown
    ensures ItemsOk(Announce(ev), Object) && EventOf(Announce(ev)) == ev
  {
    hide Lookup, ItemsOk, Announce, TypeName, EventFor, StringMember;
    KeysDiffer();
    StringMemberReads(ev, TYPE);
    StringMemberReads(ev, TEXT);
    StringMemberReads(ev, DATA);
    StringMemberReads(ev, MESSAGE);
    StringMemberReads(ev, ERROR);
    StringMemberReads(ev, PATH);
    OtherMembersRead(ev);
    TypeNameReads(ev, EventFields(ev));
  }

  /** Wire round trip: every event, announced as an object and parsed, is the event again. */
  lemma EventRoundTrip(ev: ServerEvent, before: seq<byte>, after: seq<byte>)
    requires ev != Unknown && AllSpace(before)
    ensures ItemsOk(Announce(ev), Object)
    ensures Message(Document(before, Announce(ev), after)) == ev
  {
    hide Announce, Document, Message, EventOf, ItemsOk;
    AnnouncementReads(ev);
    MessageOfTree(before, Announce(ev), after);
  }

  // ---------- the speech request ----------

  const HEAD: string := "{\"text\":"
  const MIDDLE: string := ",\"sample_rate\":"

  /** `build_tts_request`: the text of the frame. */
  method BuildTtsRequest(text: string, rate: u32) returns (out: string)
    ensures Utf8.Encode(out) == Document([], RequestItems(text, rate), [])
    ensures FieldString(Utf8.Encode(out), TEXT) == Some(text)
    ensures FieldU32(Utf8.Encode(out), SAMPLE_RATE) == Some(rate)
  {
    hide Utf8.Encode, Document, RequestItems, FieldString, FieldU32, Decimal, Escape;
    out := HEAD;
    out := AppendJsonString(out, text);
    out := out + MIDDLE + Decimal(rate) + "}";
    RequestIsTree(text, rate);
    RequestReads(text, rate);
  }

  function RequestText(text: string, rate: u32): string {
    HEAD + "\"" + Escape(text) + "\"" + MIDDLE + Decimal(rate) + "}"
  }

  function RequestItems(text: string, rate: u32): Items {
    More(Item([], Tag(TEXT, [], []), Str(Utf8.Encode(Escape(text))), []),
         Last(Item([], Tag(SAMPLE_RATE, [], []), Number(Utf8.Encode(Decimal(rate))), [])))
  }

  lemma LiteralBytes()
    ensures Utf8.Encode(HEAD + "\"") == [LBRACE] + (Quoted(TEXT) + [COLON]) + [QUOTE]
    ensures Utf8.Encode("\"" + MIDDLE) == [QUOTE] + [COMMA] + (Quoted(SAMPLE_RATE) + [COLON])
    ensures Utf8.Encode("}") == [RBRACE]
  {
    hide Utf8.Encode;
    EncodeAscii(HEAD + "\"");
    EncodeAscii("\"" + MIDDLE);
    EncodeAscii("}");
  }

  /** The frame's bytes are the print of a two-member object. */
  lemma RequestIsTree(text: string, rate: u32)
    ensures Utf8.Encode(RequestText(text, rate)) == Document([], RequestItems(text, rate), [])
  {
    hide Utf8.Encode, Decimal, Escape;
    var e, d := Escape(text), Decimal(rate);
    assert RequestText(text, rate) == (((HEAD + "\"") + e) + ("\"" + MIDDLE)) + d + "}";
    Utf8.EncodeConcat((((HEAD + "\"") + e) + ("\"" + MIDDLE)) + d, "}");
    Utf8.EncodeConcat(((HEAD + "\"") + e) + ("\"" + MIDDLE), d);
    Utf8.EncodeConcat((HEAD + "\"") + e, "\"" + MIDDLE);
    Utf8.EncodeConcat(HEAD + "\"", e);
    LiteralBytes();
    RequestLayout(Utf8.Encode(e), Utf8.Encode(d), text, rate);
  }

  lemma RequestLayout(e: seq<byte>, d: seq<byte>, text: string, rate: u32)
    requires e == Utf8.Encode(Escape(text)) && d == Utf8.Encode(Decimal(rate))
    ensures Document([], RequestItems(text, rate), [])
         == ([LBRACE] + (Quoted(TEXT) + [COLON]) + [QUOTE]) + e
            + ([QUOTE] + [COMMA] + (Quoted(SAMPLE_RATE) + [COLON])) + d + [RBRACE]
  {
    hide Utf8.Encode, Decimal, Escape, Document, Quoted, PrintItem;
    var first := Item([], Tag(TEXT, [], []), Str(e), []);
    var second := Item([], Tag(SAMPLE_RATE, [], []), Number(d), []);
    ItemPrint(first, Quoted(TEXT) + [COLON], Quoted(e));
    ItemPrint(second, Quoted(SAMPLE_RATE) + [COLON], d);
    PrintTwo(first, second);
    var q, r := Quoted(TEXT) + [COLON], Quoted(SAMPLE_RATE) + [COLON];
    QuotedIs(e);
    Regroup(q, e, r, d);
  }

  lemma PrintTwo(first: Item, second: Item)
    ensures Document([], More(first, Last(second)), [])
         == [LBRACE] + (PrintItem(first) + [COMMA] + PrintItem(second)) + [RBRACE]
  {
    hide PrintItem;
    var items := More(first, Last(second));
    assert PrintItems(Last(second)) == PrintItem(second);
    assert PrintItems(items) == PrintItem(first) + [COMMA] + PrintItems(Last(second));
    var body := Print(Container(Object, items));
    assert body == [LBRACE] + PrintItems(items) + [RBRACE];
    assert Document([], items, []) == [] + body + [];
  }

  lemma QuotedIs(e: seq<byte>)
    ensures Quoted(e) == [QUOTE] + e + [QUOTE]
  {
  }

  lemma Regroup(q: seq<byte>, e: seq<byte>, r: seq<byte>, d: seq<byte>)
    ensures [LBRACE] + ((q + ([QUOTE] + e + [QUOTE])) + [COMMA] + (r + d)) + [RBRACE]
         == ([LBRACE] + q + [QUOTE]) + e + ([QUOTE] + [COMMA] + r) + d + [RBRACE]
  {
  }

  lemma ItemPrint(it: Item, t: seq<byte>, v: seq<byte>)
    requires it.before == [] && it.after == [] && PrintTag(it.tag) == t && Print(it.value) == v
    ensures PrintItem(it) == t + v
  {
    hide PrintTag, Print;
  }

  /**
   * Print/parse round trip: for every text, with control characters, quotes, backslashes and any
   * scalar values, and every rate, reading the request back gives both.
   */
  lemma RequestReads(text: string, rate: u32)
    ensures var p := Document([], RequestItems(text, rate), []);
            FieldString(p, TEXT) == Some(text) && FieldU32(p, SAMPLE_RATE) == Some(rate)
  {
    hide Document, FieldString, FieldU32, FieldBool, Utf8.Encode, Decimal, Escape, Unescape, RawString, ParseU32;
    var items := RequestItems(text, rate);
    EscapedIsRaw(text);
    EscapeRoundTrip(text);
    DecimalReads(rate);
    ParseDecimal(rate);
    RequestOk(text, rate);
    StringFieldOfTree([], items, [], TEXT);
    OtherFieldsOfTree([], items, [], SAMPLE_RATE);
    assert Lookup(items, TEXT) == Some(items.item.value);
    assert TEXT[1] != SAMPLE_RATE[1];
    assert Lookup(items.rest, SAMPLE_RATE) == Some(items.rest.item.value);
  }

  lemma RequestOk(text: string, rate: u32)
    ensures ItemsOk(RequestItems(text, rate), Object)
  {
    hide Utf8.Encode, Decimal, Escape;
    EscapedIsRaw(text);
    DecimalReads(rate);
    var items := RequestItems(text, rate);
    assert RawString(TEXT) && RawString(SAMPLE_RATE) by { AllKeysAreRaw(); }
    assert WellFormed(items.item.value) && WellFormed(items.rest.item.value);
    assert ItemOk(items.item) && ItemOk(items.rest.item);
    assert ItemsOk(items.rest, Object);
  }
}

/**
  Chunked blob transfer of ws/server/WsProtocol.hpp: messages to and from JSON, a file split into chunk messages and a
  file put together from them.  Files are their contents; size_t arithmetic wraps at 2^64.
 */
module Chunks {
  import opened Common

  type U64 = x: nat | x < TWO_64
  type Byte = x: nat | x < 256

  // A JSON value; Other stands for numbers that are not unsigned, and for booleans.
  datatype Json =
    | Null
    | Str(s: string)
    | Unsigned(n: U64)
    | Other
    | Array(items: seq<Json>)
    | Object(fields: map<string, Json>)

  datatype Message = Message(
    id: string, correlationId: string, kind: string, ts: string, room: string, typ: string, sender: string,
    version: string, error: Option<string>, payload: Json, meta: Json)

  const BLANK: Message := Message("", "", "event", "", "", "", "", "1", None, Object(map[]), Object(map[]))

  // ---- Messages as JSON -------------------------------------------------------------------------------------------

  function MessageToJson(m: Message): Json {
    var fields := map[
      "id" := Str(m.id), "correlation_id" := Str(m.correlationId), "kind" := Str(m.kind), "ts" := Str(m.ts),
      "room" := Str(m.room), "type" := Str(m.typ), "sender" := Str(m.sender), "version" := Str(m.version)];
    var withError := if m.error.Some? then fields["error" := Str(m.error.value)] else fields;
    Object(withError["payload" := m.payload]["meta" := m.meta])
  }

  // A string field: its value, the default if it is missing, None if it is something else.
  function StringField(fields: map<string, Json>, key: string, default: string): Option<string> {
    if key !in fields then Some(default) else if fields[key].Str? then Some(fields[key].s) else None
  }

  function JsonToMessage(j: Json): Option<Message> {
    if !j.Object? then None
    else
      var f := j.fields;
      var id, correlation := StringField(f, "id", ""), StringField(f, "correlation_id", "");
      var kind, ts := StringField(f, "kind", "event"), StringField(f, "ts", "");
      var room, typ := StringField(f, "room", ""), StringField(f, "type", "");
      var sender, version := StringField(f, "sender", ""), StringField(f, "version", "1");
      if id.None? || correlation.None? || kind.None? || ts.None? || room.None? || typ.None?
         || sender.None? || version.None?
      then None
      else if "error" in f && !f["error"].Null? && !f["error"].Str? then None
      else
        Some(Message(id.value, correlation.value, kind.value, ts.value, room.value, typ.value,
                     sender.value, version.value,
                     if "error" in f && f["error"].Str? then Some(f["error"].s) else None,
                     if "payload" in f then f["payload"] else Object(map[]),
                     if "meta" in f then f["meta"] else Object(map[])))
  }

  lemma SentFields(m: Message)
    ensures var j := MessageToJson(m);
            && j.Object?
            && StringField(j.fields, "id", "") == Some(m.id)
            && StringField(j.fields, "correlation_id", "") == Some(m.correlationId)
            && StringField(j.fields, "kind", "event") == Some(m.kind) && StringField(j.fields, "ts", "") == Some(m.ts)
            && StringField(j.fields, "room", "") == Some(m.room) && StringField(j.fields, "type", "") == Some(m.typ)
            && StringField(j.fields, "sender", "") == Some(m.sender)
            && StringField(j.fields, "version", "1") == Some(m.version)
  {
  }

  lemma SentRest(m: Message)
    ensures var j := MessageToJson(m);
            && j.Object? && "payload" in j.fields && "meta" in j.fields
            && j.fields["payload"] == m.payload && j.fields["meta"] == m.meta
            && ("error" in j.fields <==> m.error.Some?) && (m.error.Some? ==> j.fields["error"] == Str(m.error.value))
  {
  }

  // What is sent is what is received.
  lemma MessageRoundTrip(m: Message)
    ensures JsonToMessage(MessageToJson(m)) == Some(m)
  {
    hide MessageToJson, StringField;
    SentFields(m);
    SentRest(m);
  }

  // The string under the key, or the default where the key is missing.
  predicate Carries(f: map<string, Json>, key: string, default: string, value: string) {
    if key in f then f[key] == Str(value) else value == default
  }

  predicate CarriesTexts(f: map<string, Json>, m: Message) {
    && Carries(f, "id", "", m.id) && Carries(f, "correlation_id", "", m.correlationId)
    && Carries(f, "kind", "event", m.kind) && Carries(f, "ts", "", m.ts)
    && Carries(f, "room", "", m.room) && Carries(f, "type", "", m.typ)
    && Carries(f, "sender", "", m.sender) && Carries(f, "version", "1", m.version)
  }

  predicate CarriesRest(f: map<string, Json>, m: Message) {
    && (if m.error.Some? then "error" in f && f["error"] == Str(m.error.value) else "error" in f ==> f["error"] == Null)
    && (if "payload" in f then f["payload"] == m.payload else m.payload == Object(map[]))
    && (if "meta" in f then f["meta"] == m.meta else m.meta == Object(map[]))
  }

  lemma FieldIsCarried(f: map<string, Json>, key: string, default: string, value: string)
    ensures StringField(f, key, default) == Some(value) <==> Carries(f, key, default, value)
  {
  }

  lemma ReadTexts(f: map<string, Json>, m: Message)
    ensures CarriesTexts(f, m) <==>
              && StringField(f, "id", "") == Some(m.id) && StringField(f, "correlation_id", "") == Some(m.correlationId)
              && StringField(f, "kind", "event") == Some(m.kind) && StringField(f, "ts", "") == Some(m.ts)
              && StringField(f, "room", "") == Some(m.room) && StringField(f, "type", "") == Some(m.typ)
              && StringField(f, "sender", "") == Some(m.sender) && StringField(f, "version", "1") == Some(m.version)
  {
    hide StringField, Carries;
    FieldIsCarried(f, "id", "", m.id);
    FieldIsCarried(f, "correlation_id", "", m.correlationId);
    FieldIsCarried(f, "kind", "event", m.kind);
    FieldIsCarried(f, "ts", "", m.ts);
    FieldIsCarried(f, "room", "", m.room);
    FieldIsCarried(f, "type", "", m.typ);
    FieldIsCarried(f, "sender", "", m.sender);
    FieldIsCarried(f, "version", "1", m.version);
  }

  // A JSON value is read as this message exactly when it is an object that carries every part of it: a text may be
  // missing where it is the default, a null error is no error, and anything but a string in the place of a text is
  // refused.
  lemma DecodingIsExact(j: Json, m: Message)
    ensures JsonToMessage(j) == Some(m) <==> j.Object? && CarriesTexts(j.fields, m) && CarriesRest(j.fields, m)
  {
    hide StringField, CarriesTexts;
    if j.Object? { ReadTexts(j.fields, m); }
  }

  // ---- Splitting --------------------------------------------------------------------------------------------------

  function Min(a: nat, b: nat): nat { if a < b then a else b }

  lemma MulMonotone(a: nat, b: nat, c: nat)
    requires a <= b
    ensures a * c <= b * c
  {
  }

  lemma DivBounds(a: nat, b: nat)
    requires b > 0
    ensures a / b <= a && (a / b) * b <= a < (a / b) * b + b
  {
    var q := a / b;
    MulMonotone(1, b, q);
    assert 1 * q == q && b * q == q * b;
  }

  function Wrapped(x: nat): U64 { x % TWO_64 }

  // The number of chunks as the source computes it, in 64 bits.
  function TotalChunks(n: U64, c: U64): (t: U64)
    requires c > 0
    ensures t * c <= Wrapped(n + c - 1) < t * c + c
  {
    DivBounds(Wrapped(n + c - 1), c);
    Wrapped(n + c - 1) / c
  }

  function Slice(data: seq<Byte>, c: nat, i: nat): seq<Byte>
    requires i * c <= |data|
  {
    data[i * c..i * c + Min(c, |data| - i * c)]
  }

  function AsItems(bytes: seq<Byte>): (items: seq<Json>)
    ensures |items| == |bytes| && forall k :: 0 <= k < |bytes| ==> items[k] == Unsigned(bytes[k])
  {
    seq(|bytes|, k requires 0 <= k < |bytes| => Unsigned(bytes[k]))
  }

  function StartMessage(tid: string, file: string, bytes: U64, chunks: U64, c: U64): Message {
    BLANK.(id := tid + ":start", correlationId := tid, typ := "chunk_start",
           meta := Object(map["transfer_id" := Str(tid), "file_name" := Str(file), "total_bytes" := Unsigned(bytes),
                              "total_chunks" := Unsigned(chunks), "chunk_size" := Unsigned(c)]))
  }

  function DataMessage(tid: string, i: U64, chunks: U64, bytes: seq<Byte>): Message
    requires |bytes| < TWO_64
  {
    BLANK.(id := tid + ":" + Digits(i), correlationId := tid, typ := "chunk_data", payload := Array(AsItems(bytes)),
           meta := Object(map["transfer_id" := Str(tid), "chunk_index" := Unsigned(i),
                              "total_chunks" := Unsigned(chunks),
                              "chunk_bytes" := Unsigned(|bytes|)]))
  }

  function EndMessage(tid: string, bytes: U64, chunks: U64): Message {
    BLANK.(id := tid + ":end", correlationId := tid, typ := "chunk_end",
           meta := Object(map["transfer_id" := Str(tid), "total_bytes" := Unsigned(bytes),
                              "total_chunks" := Unsigned(chunks)]))
  }

  // Every chunk starts inside the data, wrapped or not.
  lemma ChunkStartsInside(n: U64, c: U64, i: nat)
    requires n > 0 && c > 0 && i < TotalChunks(n, c)
    ensures i * c < n
  {
    var t := TotalChunks(n, c);
    assert (i + 1) * c <= t * c by { MulMonotone(i + 1, t, c); }
    assert i * c + c == (i + 1) * c;
  }

  function DataMessages(data: seq<Byte>, c: U64, tid: string): (msgs: seq<Message>)
    requires 0 < |data| < TWO_64 && c > 0
    ensures |msgs| == TotalChunks(|data|, c)
    ensures forall i :: 0 <= i < |msgs| ==> msgs[i] == DataMessageAt(data, c, tid, i)
  {
    seq(TotalChunks(|data|, c), i requires 0 <= i < TotalChunks(|data|, c) => DataMessageAt(data, c, tid, i))
  }

  function DataMessageAt(data: seq<Byte>, c: U64, tid: string, i: nat): Message
    requires 0 < |data| < TWO_64 && c > 0 && i < TotalChunks(|data|, c)
  {
    ChunkStartsInside(|data|, c, i);
    DataMessage(tid, i, TotalChunks(|data|, c), Slice(data, c, i))
  }

  method BuildPayload(bytes: seq<Byte>) returns (payload: seq<Json>)
    ensures payload == AsItems(bytes)
  {
    payload := [];
    for i := 0 to |bytes|
      invariant payload == AsItems(bytes[..i])
    {
      payload := payload + [Unsigned(bytes[i])];
    }
    assert bytes[..|bytes|] == bytes;
  }

  method BlobToChunk(data: seq<Byte>, c: U64, file: string, naming: string) returns (chunks: seq<Message>)
    requires |data| < TWO_64
    ensures c == 0 || data == [] ==> chunks == []
    ensures c > 0 && data != [] ==>
              var tid := if naming == "" then file else naming;
              chunks == Transfer(data, c, tid, file, DataMessages(data, c, tid))
  {
    if c == 0 || data == [] { return []; }
    var tid := if naming == "" then file else naming;
    var total := TotalChunks(|data|, c);
    chunks := [StartMessage(tid, file, |data|, total, c)];
    var index := 0;
    while index < total
      invariant 0 <= index <= total
      invariant chunks == [StartMessage(tid, file, |data|, total, c)] + DataMessages(data, c, tid)[..index]
    {
      ChunkStartsInside(|data|, c, index);
      var offset := index * c;
      var size := Min(c, |data| - offset);
      var payload := BuildPayload(data[offset..offset + size]);
      var meta := map["transfer_id" := Str(tid), "chunk_index" := Unsigned(index), "total_chunks" := Unsigned(total),
                      "chunk_bytes" := Unsigned(size)];
      var message := BLANK.(id := tid + ":" + Digits(index), correlationId := tid, typ := "chunk_data",
                            payload := Array(payload), meta := Object(meta));
      assert message == DataMessages(data, c, tid)[index];
      chunks := chunks + [message];
      index := index + 1;
    }
    chunks := chunks + [EndMessage(tid, |data|, total)];
  }

  // ---- Reassembly -------------------------------------------------------------------------------------------------

  function SizeField(j: Json, key: string): Option<U64> {
    if j.Object? && key in j.fields && j.fields[key].Unsigned? then Some(j.fields[key].n) else None
  }

  function TextField(j: Json, key: string): Option<string> {
    if j.Object? && key in j.fields && j.fields[key].Str? then Some(j.fields[key].s) else None
  }

  datatype Header = Header(tid: string, chunks: U64, bytes: U64)

  function ReadHeader(m: Message, typ: string): Option<Header> {
    var tid, chunks := TextField(m.meta, "transfer_id"), SizeField(m.meta, "total_chunks");
    var bytes := SizeField(m.meta, "total_bytes");
    if m.typ == typ && tid.Some? && chunks.Some? && bytes.Some?
    then Some(Header(tid.value, chunks.value, bytes.value)) else None
  }

  // The start and end messages agree and announce as many chunks as there are messages between them.
  function HeaderOf(msgs: seq<Message>): Option<Header> {
    if |msgs| < 3 then None
    else
      var first, last := ReadHeader(msgs[0], "chunk_start"), ReadHeader(msgs[|msgs| - 1], "chunk_end");
      if first.None? || last.None? || first != last || |msgs| != Wrapped(first.value.chunks + 2) then None else first
  }

  // The item is a number that, narrowed to 32 bits, is a byte.
  predicate ByteItem(j: Json) { j.Unsigned? && j.n % 0x1_0000_0000 <= 0xFF }

  function ByteAt(j: Json): Byte
    requires ByteItem(j)
  {
    j.n % 0x1_0000_0000
  }

  predicate DataOk(m: Message, h: Header) {
    && m.typ == "chunk_data" && m.payload.Array?
    && TextField(m.meta, "transfer_id") == Some(h.tid) && SizeField(m.meta, "total_chunks") == Some(h.chunks)
    && SizeField(m.meta, "chunk_index").Some? && SizeField(m.meta, "chunk_index").value < h.chunks
    && SizeField(m.meta, "chunk_bytes").Some? && SizeField(m.meta, "chunk_bytes").value == |m.payload.items|
    && forall k :: 0 <= k < |m.payload.items| ==> ByteItem(m.payload.items[k])
  }

  function IndexOf(m: Message): nat {
    if SizeField(m.meta, "chunk_index").Some? then SizeField(m.meta, "chunk_index").value else 0
  }

  function ItemBytes(items: seq<Json>): (bytes: seq<Byte>)
    requires forall k :: 0 <= k < |items| ==> ByteItem(items[k])
    ensures |bytes| == |items|
  {
    seq(|items|, k requires 0 <= k < |items| && ByteItem(items[k]) => ByteAt(items[k]))
  }

  function BytesOf(m: Message, h: Header): seq<Byte>
    requires DataOk(m, h)
  {
    ItemBytes(m.payload.items)
  }

  // The chunks seen after some data messages, or None once one of them is refused.
  function Scan(msgs: seq<Message>, h: Header): Option<map<nat, seq<Byte>>> {
    if msgs == [] then Some(map[])
    else
      var before, m := Scan(msgs[..|msgs| - 1], h), msgs[|msgs| - 1];
      if before.None? || !DataOk(m, h) || IndexOf(m) in before.value then None
      else Some(before.value[IndexOf(m) := BytesOf(m, h)])
  }

  function Volume(msgs: seq<Message>): nat {
    if msgs == [] then 0
    else
      var m := msgs[|msgs| - 1];
      Volume(msgs[..|msgs| - 1]) + if m.payload.Array? then |m.payload.items| else 0
  }

  function Piece(parts: map<nat, seq<Byte>>, i: nat): seq<Byte> { if i in parts then parts[i] else [] }

  function Joined(parts: map<nat, seq<Byte>>, n: nat): seq<Byte> {
    if n == 0 then [] else Joined(parts, n - 1) + Piece(parts, n - 1)
  }

  function Middle(msgs: seq<Message>): seq<Message>
    requires |msgs| >= 2
  {
    msgs[1..|msgs| - 1]
  }

  function Reassemble(msgs: seq<Message>): Option<seq<Byte>> {
    var h := HeaderOf(msgs);
    if h.None? then None
    else
      var parts := Scan(Middle(msgs), h.value);
      if parts.None? || !(forall i :: 0 <= i < h.value.chunks ==> i in parts.value) then None
      else if Wrapped(Volume(Middle(msgs))) != h.value.bytes then None
      else Some(Joined(parts.value, h.value.chunks))
  }

  // The bytes of one payload, or None at the first item that is not a byte.
  method ReadPayload(items: seq<Json>) returns (bytes: Option<seq<Byte>>)
    ensures bytes.Some? <==> forall k :: 0 <= k < |items| ==> ByteItem(items[k])
    ensures bytes.Some? ==> bytes.value == ItemBytes(items)
  {
    var target: seq<Byte> := [];
    for k := 0 to |items|
      invariant forall j :: 0 <= j < k ==> ByteItem(items[j])
      invariant target == ItemBytes(items[..k])
    {
      if !items[k].Unsigned? { return None; }
      var value := items[k].n % 0x1_0000_0000;
      if value > 0xFF { return None; }
      target := target + [value];
    }
    assert items[..|items|] == items;
    return Some(target);
  }

  // One data message: its index and bytes, or None if it does not belong to the transfer or is malformed.
  method ReadChunk(m: Message, h: Header) returns (chunk: Option<(nat, seq<Byte>)>)
    ensures chunk.Some? <==> DataOk(m, h)
    ensures chunk.Some? ==> chunk.value == (IndexOf(m), BytesOf(m, h))
  {
    if m.typ != "chunk_data" || !m.payload.Array? { return None; }
    var tid, index, count, size := TextField(m.meta, "transfer_id"), SizeField(m.meta, "chunk_index"),
                                   SizeField(m.meta, "total_chunks"), SizeField(m.meta, "chunk_bytes");
    if tid.None? || index.None? || count.None? || size.None? { return None; }
    if tid.value != h.tid || count.value != h.chunks || index.value >= h.chunks { return None; }
    if |m.payload.items| != size.value { return None; }
    var bytes := ReadPayload(m.payload.items);
    if bytes.None? { return None; }
    return Some((index.value, bytes.value));
  }

  method ChunksToBlob(msgs: seq<Message>) returns (blob: Option<seq<Byte>>)
    ensures blob == Reassemble(msgs)
  {
    hide HeaderOf, DataOk, IndexOf, Wrapped, Scan, Volume, BytesOf;
    var header := HeaderOf(msgs);
    if header.None? { return None; }
    var h := header.value;
    HeaderNeedsThree(msgs);
    var ordered, seen := new seq<Byte>[h.chunks](_ => []), new bool[h.chunks](_ => false);
    var accumulated: U64 := 0;
    WrapIsAdditive(0, 0);
    var i := 1;
    ghost var parts: map<nat, seq<Byte>> := map[];
    ScanStart(msgs, h);
    while i + 1 < |msgs|
      invariant 1 <= i <= |msgs| - 1
      invariant Scan(msgs[1..i], h) == Some(parts) && accumulated == Wrapped(Volume(msgs[1..i]))
      invariant forall k :: 0 <= k < h.chunks ==> seen[k] == (k in parts) && ordered[k] == Piece(parts, k)
    {
      var m := msgs[i];
      ScanStep(msgs, i, h, parts);
      var chunk := ReadChunk(m, h);
      if chunk.None? {
        ScanGoesOn(msgs, i + 1, h);
        return None;
      }
      IndexInRange(m, h);
      if seen[chunk.value.0] {
        ScanGoesOn(msgs, i + 1, h);
        return None;
      }
      ordered[chunk.value.0] := chunk.value.1;
      WrapIsAdditive(Volume(msgs[1..i]), |chunk.value.1|);
      accumulated := Wrapped(accumulated + |chunk.value.1|);
      seen[chunk.value.0] := true;
      parts := parts[chunk.value.0 := chunk.value.1];
      i := i + 1;
    }
    assert msgs[1..i] == Middle(msgs);
    if exists k :: 0 <= k < h.chunks && !seen[k] { return None; }
    if accumulated != h.bytes { return None; }
    var output := Concatenate(ordered, parts);
    return Some(output);
  }

  method Concatenate(ordered: array<seq<Byte>>, ghost parts: map<nat, seq<Byte>>) returns (output: seq<Byte>)
    requires forall k :: 0 <= k < ordered.Length ==> ordered[k] == Piece(parts, k)
    ensures output == Joined(parts, ordered.Length)
  {
    output := [];
    for k := 0 to ordered.Length
      invariant output == Joined(parts, k)
    {
      output := output + ordered[k];
    }
  }

  lemma ScanStart(msgs: seq<Message>, h: Header)
    requires |msgs| >= 1
    ensures Scan(msgs[1..1], h) == Some(map[]) && Volume(msgs[1..1]) == 0
  {
  }

  lemma ScanStep(msgs: seq<Message>, i: nat, h: Header, parts: map<nat, seq<Byte>>)
    requires 1 <= i < |msgs| && Scan(msgs[1..i], h) == Some(parts)
    ensures var m := msgs[i];
            && Scan(msgs[1..i + 1], h) ==
               (if !DataOk(m, h) || IndexOf(m) in parts then None else Some(parts[IndexOf(m) := BytesOf(m, h)]))
            && (DataOk(m, h) ==> Volume(msgs[1..i + 1]) == Volume(msgs[1..i]) + |BytesOf(m, h)|)
  {
    assert msgs[1..i + 1][..i - 1] == msgs[1..i] && msgs[1..i + 1][i - 1] == msgs[i];
  }

  lemma HeaderNeedsThree(msgs: seq<Message>)
    ensures HeaderOf(msgs).Some? ==> |msgs| >= 3
  {
  }

  lemma IndexInRange(m: Message, h: Header)
    requires DataOk(m, h)
    ensures IndexOf(m) < h.chunks && m.payload.Array? && |m.payload.items| == |BytesOf(m, h)|
  {
  }

  lemma WrapIsAdditive(a: nat, b: nat)
    ensures Wrapped(Wrapped(a) + b) == Wrapped(a + b) && Wrapped(0) == 0
  {
  }

  // Once a message has been refused the whole is refused.
  lemma {:induction false} ScanGoesOn(msgs: seq<Message>, i: nat, h: Header)
    requires |msgs| >= 2 && 1 <= i <= |msgs| - 1
    ensures Scan(msgs[1..i], h).None? ==> Scan(Middle(msgs), h).None?
    decreases |msgs| - i
  {
    if i == |msgs| - 1 {
      assert msgs[1..i] == Middle(msgs);
    } else {
      assert msgs[1..i + 1][..|msgs[1..i + 1]| - 1] == msgs[1..i];
      ScanGoesOn(msgs, i + 1, h);
    }
  }

  // ---- What reassembly accepts ------------------------------------------------------------------------------------

  ghost predicate AllOk(msgs: seq<Message>, h: Header) { forall j :: 0 <= j < |msgs| ==> DataOk(msgs[j], h) }

  ghost predicate IndicesDiffer(msgs: seq<Message>) {
    forall j, k :: 0 <= j < k < |msgs| ==> IndexOf(msgs[j]) != IndexOf(msgs[k])
  }

  // The chunks are those of the messages, each under its own index.
  ghost predicate PartsOf(msgs: seq<Message>, h: Header, parts: map<nat, seq<Byte>>)
    requires AllOk(msgs, h)
  {
    && (forall j :: 0 <= j < |msgs| ==> IndexOf(msgs[j]) in parts && parts[IndexOf(msgs[j])] == BytesOf(msgs[j], h))
    && (forall i :: i in parts ==> exists j :: 0 <= j < |msgs| && IndexOf(msgs[j]) == i)
    && (forall i :: i in parts ==> i < h.chunks)
    && |parts| == |msgs|
  }

  lemma ExtendOk(before: seq<Message>, m: Message, h: Header)
    ensures AllOk(before + [m], h) <==> AllOk(before, h) && DataOk(m, h)
    ensures IndicesDiffer(before + [m]) <==>
              IndicesDiffer(before) && forall j :: 0 <= j < |before| ==> IndexOf(before[j]) != IndexOf(m)
  {
    hide DataOk, IndexOf;
    var msgs := before + [m];
    assert msgs[|before|] == m && forall j :: 0 <= j < |before| ==> msgs[j] == before[j];
    if AllOk(msgs, h) { forall j | 0 <= j < |before| ensures DataOk(before[j], h) { assert DataOk(msgs[j], h); } }
    if IndicesDiffer(msgs) {
      forall j | 0 <= j < |before| ensures IndexOf(before[j]) != IndexOf(m) {
        assert IndexOf(msgs[j]) != IndexOf(msgs[|before|]);
      }
      forall j, k | 0 <= j < k < |before| ensures IndexOf(before[j]) != IndexOf(before[k]) {
        assert IndexOf(msgs[j]) != IndexOf(msgs[k]);
      }
    }
  }

  lemma PartsGrow(before: seq<Message>, m: Message, h: Header, parts: map<nat, seq<Byte>>)
    requires AllOk(before, h) && DataOk(m, h) && IndexOf(m) < h.chunks && PartsOf(before, h, parts)
    requires IndexOf(m) !in parts
    ensures AllOk(before + [m], h) && PartsOf(before + [m], h, parts[IndexOf(m) := BytesOf(m, h)])
  {
    hide DataOk, BytesOf, IndexOf;
    var msgs, parts' := before + [m], parts[IndexOf(m) := BytesOf(m, h)];
    assert forall j :: 0 <= j < |before| ==> msgs[j] == before[j];
    forall i | i in parts' ensures exists j :: 0 <= j < |msgs| && IndexOf(msgs[j]) == i {
      if i in parts {
        var j :| 0 <= j < |before| && IndexOf(before[j]) == i;
        assert IndexOf(msgs[j]) == i;
      } else {
        assert IndexOf(msgs[|before|]) == i;
      }
    }
  }

  lemma {:induction false} ScanAccepts(msgs: seq<Message>, h: Header)
    ensures Scan(msgs, h).Some? <==> AllOk(msgs, h) && IndicesDiffer(msgs)
    ensures Scan(msgs, h).Some? ==> PartsOf(msgs, h, Scan(msgs, h).value)
  {
    if msgs == [] {
    } else {
      var before, m := msgs[..|msgs| - 1], msgs[|msgs| - 1];
      ScanAccepts(before, h);
      assert before + [m] == msgs;
      hide DataOk, BytesOf, IndexOf, AllOk, IndicesDiffer;
      ExtendOk(before, m, h);
      if Scan(before, h).Some? && DataOk(m, h) {
        IndexInRange(m, h);
        if IndexOf(m) !in Scan(before, h).value { PartsGrow(before, m, h, Scan(before, h).value); }
      }
    }
  }

  // As many chunks as there are indices, all different: every index is there.  The source's last check never fails.
  lemma EveryIndexSeen(msgs: seq<Message>, h: Header)
    requires Scan(msgs, h).Some? && |msgs| == h.chunks
    ensures forall i :: 0 <= i < h.chunks ==> i in Scan(msgs, h).value
  {
    ScanAccepts(msgs, h);
    var parts := Scan(msgs, h).value;
    var all := Below(h.chunks);
    assert parts.Keys <= all;
    if i: nat :| i < h.chunks && i !in parts {
      Cardinality(parts.Keys, all - {i});
    }
  }

  function Below(n: nat): (s: set<nat>)
    ensures |s| == n && forall i: nat :: i in s <==> i < n
  {
    if n == 0 then {} else Below(n - 1) + {n - 1}
  }

  lemma {:induction false} Cardinality<T>(a: set<T>, b: set<T>)
    requires a <= b
    ensures |a| <= |b|
  {
    if a != {} {
      var x :| x in a;
      Cardinality(a - {x}, b - {x});
    }
  }

  // The number of bytes joined is the number received.
  function Sizes(parts: map<nat, seq<Byte>>, n: nat): nat {
    if n == 0 then 0 else Sizes(parts, n - 1) + |Piece(parts, n - 1)|
  }

  lemma {:induction false} JoinedSize(parts: map<nat, seq<Byte>>, n: nat)
    ensures |Joined(parts, n)| == Sizes(parts, n)
  {
    if n == 0 {
    } else {
      JoinedSize(parts, n - 1);
    }
  }

  lemma {:induction false} SizesGrow(parts: map<nat, seq<Byte>>, i: nat, bytes: seq<Byte>, n: nat)
    requires i !in parts
    ensures Sizes(parts[i := bytes], n) == Sizes(parts, n) + if i < n then |bytes| else 0
  {
    if n == 0 {
    } else {
      SizesGrow(parts, i, bytes, n - 1);
    }
  }

  lemma {:induction false} VolumeIsSizes(msgs: seq<Message>, h: Header)
    requires Scan(msgs, h).Some?
    ensures Volume(msgs) == Sizes(Scan(msgs, h).value, h.chunks)
  {
    if msgs != [] {
      var before, m := msgs[..|msgs| - 1], msgs[|msgs| - 1];
      VolumeIsSizes(before, h);
      IndexInRange(m, h);
      SizesGrow(Scan(before, h).value, IndexOf(m), BytesOf(m, h), h.chunks);
    } else {
      NoSizes(h.chunks);
    }
  }

  lemma {:induction false} NoSizes(n: nat)
    ensures Sizes(map[], n) == 0
  {
    if n == 0 {
    } else {
      NoSizes(n - 1);
    }
  }

  // total_chunks + 2 cannot wrap here, because there are at least three messages.
  lemma HeaderCounts(msgs: seq<Message>)
    requires HeaderOf(msgs).Some?
    ensures |msgs| == HeaderOf(msgs).value.chunks + 2
  {
  }

  // Reassembly succeeds exactly when start and end agree, the data messages all belong to the transfer and are well
  // formed, no two carry the same index, and their volume is the announced one; the result is then the chunks in index
  // order, of the announced length.
  lemma ReassemblyIsExact(msgs: seq<Message>)
    ensures Reassemble(msgs).Some? <==>
              && HeaderOf(msgs).Some? && AllOk(Middle(msgs), HeaderOf(msgs).value) && IndicesDiffer(Middle(msgs))
              && Wrapped(Volume(Middle(msgs))) == HeaderOf(msgs).value.bytes
    ensures Reassemble(msgs).Some? ==>
              var h, data := HeaderOf(msgs).value, Middle(msgs);
              exists parts :: PartsOf(data, h, parts) && Reassemble(msgs).value == Joined(parts, h.chunks)
                && (forall i :: 0 <= i < h.chunks ==> i in parts) && |data| == h.chunks
                && Wrapped(|Reassemble(msgs).value|) == h.bytes
  {
    if HeaderOf(msgs).Some? {
      var h, data := HeaderOf(msgs).value, Middle(msgs);
      HeaderCounts(msgs);
      ScanAccepts(data, h);
      if Scan(data, h).Some? {
        EveryIndexSeen(data, h);
        VolumeIsSizes(data, h);
        JoinedSize(Scan(data, h).value, h.chunks);
      }
    }
  }

  // ---- The same in terms of what the messages say -----------------------------------------------------------------

  predicate Says(m: Message, key: string, value: Json) {
    m.meta.Object? && key in m.meta.fields && m.meta.fields[key] == value
  }

  predicate Announces(m: Message, typ: string, tid: string, chunks: U64, bytes: U64) {
    && m.typ == typ && Says(m, "transfer_id", Str(tid))
    && Says(m, "total_chunks", Unsigned(chunks)) && Says(m, "total_bytes", Unsigned(bytes))
  }

  // A data message of the transfer: some index below the count, and as many items as it says, each of which is a byte
  // in its low 32 bits.
  ghost predicate IsChunk(m: Message, tid: string, chunks: U64) {
    && m.typ == "chunk_data" && Says(m, "transfer_id", Str(tid)) && Says(m, "total_chunks", Unsigned(chunks))
    && (exists i: U64 :: i < chunks && Says(m, "chunk_index", Unsigned(i)))
    && m.payload.Array? && |m.payload.items| < TWO_64 && Says(m, "chunk_bytes", Unsigned(|m.payload.items|))
    && forall k :: 0 <= k < |m.payload.items| ==>
         m.payload.items[k].Unsigned? && m.payload.items[k].n % 0x1_0000_0000 < 256
  }

  ghost predicate SameIndex(m: Message, m': Message) {
    exists i: U64 :: Says(m, "chunk_index", Unsigned(i)) && Says(m', "chunk_index", Unsigned(i))
  }

  ghost predicate IsTransfer(msgs: seq<Message>, tid: string, chunks: U64, bytes: U64) {
    && 3 <= |msgs| == chunks + 2 < TWO_64
    && Announces(msgs[0], "chunk_start", tid, chunks, bytes)
    && Announces(msgs[|msgs| - 1], "chunk_end", tid, chunks, bytes)
    && (forall j :: 0 <= j < |Middle(msgs)| ==> IsChunk(Middle(msgs)[j], tid, chunks))
    && (forall j, k :: 0 <= j < k < |Middle(msgs)| ==> !SameIndex(Middle(msgs)[j], Middle(msgs)[k]))
    && Volume(Middle(msgs)) % TWO_64 == bytes
  }

  lemma HeaderIsAnnounced(m: Message, typ: string, h: Header)
    ensures ReadHeader(m, typ) == Some(h) <==> Announces(m, typ, h.tid, h.chunks, h.bytes)
  {
  }

  lemma ChunkIsOk(m: Message, h: Header)
    ensures DataOk(m, h) <==> IsChunk(m, h.tid, h.chunks)
    ensures DataOk(m, h) ==> forall i: U64 :: Says(m, "chunk_index", Unsigned(i)) <==> IndexOf(m) == i
  {
    if IsChunk(m, h.tid, h.chunks) {
      var i: U64 :| i < h.chunks && Says(m, "chunk_index", Unsigned(i));
    }
    if DataOk(m, h) { assert Says(m, "chunk_index", Unsigned(IndexOf(m))); }
  }

  lemma IndicesAreSaid(m: Message, m': Message, h: Header)
    requires DataOk(m, h) && DataOk(m', h)
    ensures SameIndex(m, m') <==> IndexOf(m) == IndexOf(m')
  {
    hide DataOk, Says;
    ChunkIsOk(m, h);
    ChunkIsOk(m', h);
    IndexInRange(m, h);
    var i: U64 := IndexOf(m);
    assert Says(m, "chunk_index", Unsigned(i));
  }

  lemma HeaderIsExact(msgs: seq<Message>, h: Header)
    ensures HeaderOf(msgs) == Some(h) <==>
              && 3 <= |msgs| == h.chunks + 2 < TWO_64
              && Announces(msgs[0], "chunk_start", h.tid, h.chunks, h.bytes)
              && Announces(msgs[|msgs| - 1], "chunk_end", h.tid, h.chunks, h.bytes)
  {
    hide ReadHeader, Announces;
    if |msgs| >= 3 {
      HeaderIsAnnounced(msgs[0], "chunk_start", h);
      HeaderIsAnnounced(msgs[|msgs| - 1], "chunk_end", h);
    }
  }

  lemma ChunksAreOk(data: seq<Message>, h: Header)
    ensures AllOk(data, h) <==> forall j :: 0 <= j < |data| ==> IsChunk(data[j], h.tid, h.chunks)
    ensures AllOk(data, h) ==>
              (IndicesDiffer(data) <==> forall j, k :: 0 <= j < k < |data| ==> !SameIndex(data[j], data[k]))
  {
    hide DataOk, IsChunk, SameIndex, IndexOf;
    forall j | 0 <= j < |data| ensures DataOk(data[j], h) <==> IsChunk(data[j], h.tid, h.chunks) {
      ChunkIsOk(data[j], h);
    }
    if AllOk(data, h) {
      forall j, k | 0 <= j < k < |data|
        ensures SameIndex(data[j], data[k]) <==> IndexOf(data[j]) == IndexOf(data[k])
      {
        IndicesAreSaid(data[j], data[k], h);
      }
    }
  }

  // Messages are put together exactly when they are a transfer: a foreign transfer id, an end that disagrees with the
  // start, an index that is too large or comes twice, or a wrong count refuses them all.
  lemma AcceptedExactly(msgs: seq<Message>)
    ensures Reassemble(msgs).Some? <==> exists tid, chunks, bytes :: IsTransfer(msgs, tid, chunks, bytes)
  {
    hide HeaderOf, AllOk, IndicesDiffer, Reassemble, IsChunk, SameIndex, Announces;
    ReassemblyIsExact(msgs);
    if Reassemble(msgs).Some? {
      var h := HeaderOf(msgs).value;
      HeaderIsExact(msgs, h);
      ChunksAreOk(Middle(msgs), h);
      assert IsTransfer(msgs, h.tid, h.chunks, h.bytes);
    }
    if tid, chunks, bytes :| IsTransfer(msgs, tid, chunks, bytes) {
      HeaderIsExact(msgs, Header(tid, chunks, bytes));
      ChunksAreOk(Middle(msgs), Header(tid, chunks, bytes));
    }
  }

  // ---- Round trip -------------------------------------------------------------------------------------------------

  // The messages of a transfer, with the data messages in the order `data` gives.
  function Transfer(blob: seq<Byte>, c: U64, tid: string, file: string, data: seq<Message>): seq<Message>
    requires |blob| < TWO_64 && c > 0
  {
    var total := TotalChunks(|blob|, c);
    [StartMessage(tid, file, |blob|, total, c)] + data + [EndMessage(tid, |blob|, total)]
  }

  lemma TransferHeader(blob: seq<Byte>, c: U64, tid: string, file: string, data: seq<Message>)
    requires |blob| < TWO_64 && c > 0 && |data| == TotalChunks(|blob|, c) && |data| + 2 < TWO_64
    ensures var msgs := Transfer(blob, c, tid, file, data);
            && HeaderOf(msgs) == (if data == [] then None else Some(Header(tid, TotalChunks(|blob|, c), |blob|)))
            && Middle(msgs) == data
  {
    var msgs, total := Transfer(blob, c, tid, file, data), TotalChunks(|blob|, c);
    assert msgs[0] == StartMessage(tid, file, |blob|, total, c) && msgs[|msgs| - 1] == EndMessage(tid, |blob|, total);
    assert ReadHeader(msgs[0], "chunk_start") == Some(Header(tid, total, |blob|));
    assert ReadHeader(msgs[|msgs| - 1], "chunk_end") == Some(Header(tid, total, |blob|));
  }

  // What goes out for a file: no two messages have the same id.
  lemma SentIdsDiffer(blob: seq<Byte>, c: U64, tid: string, file: string, j: nat, k: nat)
    requires 0 < |blob| < TWO_64 && c > 0 && j < k < TotalChunks(|blob|, c) + 2
    ensures var msgs := Transfer(blob, c, tid, file, DataMessages(blob, c, tid)); msgs[j].id != msgs[k].id
  {
    hide TotalChunks, Slice, Digits;
    var msgs := Transfer(blob, c, tid, file, DataMessages(blob, c, tid));
    SentLabel(blob, c, tid, file, j);
    SentLabel(blob, c, tid, file, k);
    var a, b := IdTail(j, |msgs|), IdTail(k, |msgs|);
    assert (tid + a)[|tid|..] == a && (tid + b)[|tid|..] == b;
    TailsDiffer(j, k, |msgs|);
  }

  // What an id has after the name of the transfer, by its place among n messages.
  function IdTail(j: nat, n: nat): string
    requires j < n
  {
    if j == 0 then ":start" else if j == n - 1 then ":end" else ":" + Digits(j - 1)
  }

  lemma TailsDiffer(j: nat, k: nat, n: nat)
    requires j < k < n
    ensures IdTail(j, n) != IdTail(k, n)
  {
    var a, b := IdTail(j, n), IdTail(k, n);
    if j > 0 {
      DigitsStart(j - 1);
      ParseDigits(j - 1);
      assert a[1..] == Digits(j - 1);
    }
    if k < n - 1 {
      DigitsStart(k - 1);
      ParseDigits(k - 1);
      assert b[1..] == Digits(k - 1);
    }
    assert a[1] == b[1] ==> j > 0 && k < n - 1;
  }

  // Every message is an event of version 1 under the transfer's name.
  lemma SentLabel(blob: seq<Byte>, c: U64, tid: string, file: string, j: nat)
    requires 0 < |blob| < TWO_64 && c > 0 && j < TotalChunks(|blob|, c) + 2
    ensures var msgs := Transfer(blob, c, tid, file, DataMessages(blob, c, tid));
            && |msgs| == TotalChunks(|blob|, c) + 2
            && msgs[j].id == tid + IdTail(j, |msgs|) && msgs[j].correlationId == tid
            && msgs[j].kind == "event" && msgs[j].version == "1" && msgs[j].error.None?
  {
    hide TotalChunks, Slice, Digits;
    var msgs := Transfer(blob, c, tid, file, DataMessages(blob, c, tid));
    if 0 < j < |msgs| - 1 {
      assert msgs[j] == DataMessages(blob, c, tid)[j - 1];
      assert tid + ":" + Digits(j - 1) == tid + (":" + Digits(j - 1));
    }
  }

  // The first message names the file and the chunk size, and the one with index i carries the bytes from i * c on.
  lemma SentContents(blob: seq<Byte>, c: U64, tid: string, file: string, i: nat, k: nat)
    requires 0 < |blob| < TWO_64 && c > 0 && i < TotalChunks(|blob|, c)
    ensures i * c < |blob|
    ensures var msgs := Transfer(blob, c, tid, file, DataMessages(blob, c, tid));
            && |msgs| == TotalChunks(|blob|, c) + 2 && IsChunk(msgs[i + 1], tid, TotalChunks(|blob|, c))
            && Says(msgs[0], "file_name", Str(file)) && Says(msgs[0], "chunk_size", Unsigned(c))
            && Says(msgs[i + 1], "chunk_index", Unsigned(i))
            && |msgs[i + 1].payload.items| == (if i * c + c <= |blob| then c else |blob| - i * c)
            && (k < |msgs[i + 1].payload.items| ==> msgs[i + 1].payload.items[k] == Unsigned(blob[i * c + k]))
  {
    hide TotalChunks, DataOk, IsChunk, Digits;
    var msgs := Transfer(blob, c, tid, file, DataMessages(blob, c, tid));
    ChunkStartsInside(|blob|, c, i);
    DataMessageAtIsOk(blob, c, tid, i);
    assert msgs[i + 1] == DataMessages(blob, c, tid)[i];
    ChunkIsOk(msgs[i + 1], Header(tid, TotalChunks(|blob|, c), |blob|));
  }

  lemma DataMessageIsOk(tid: string, i: U64, h: Header, bytes: seq<Byte>)
    requires |bytes| < TWO_64 && i < h.chunks && tid == h.tid
    ensures var m := DataMessage(tid, i, h.chunks, bytes); DataOk(m, h) && IndexOf(m) == i && BytesOf(m, h) == bytes
  {
    var m := DataMessage(tid, i, h.chunks, bytes);
    assert forall k :: 0 <= k < |bytes| ==> m.payload.items[k] == Unsigned(bytes[k]);
  }

  lemma {:induction false} OnceOnly<T>(s: seq<T>, j: nat, k: nat)
    requires j < k < |s| && s[j] == s[k]
    ensures multiset(s)[s[j]] >= 2
  {
    assert s == s[..k] + [s[k]] + s[k + 1..];
    assert s[j] in s[..k];
  }

  // However the data messages are shuffled, each is still the one chunk of its index.
  lemma ShuffledData(blob: seq<Byte>, c: U64, tid: string, data: seq<Message>)
    requires 0 < |blob| < TWO_64 && c > 0 && multiset(data) == multiset(DataMessages(blob, c, tid))
    ensures var h := Header(tid, TotalChunks(|blob|, c), |blob|);
            && |data| == h.chunks && AllOk(data, h) && IndicesDiffer(data)
            && forall j :: 0 <= j < |data| ==>
                 IndexOf(data[j]) < h.chunks && data[j] == DataMessageAt(blob, c, tid, IndexOf(data[j]))
                 && BytesOf(data[j], h) == SliceAt(blob, c, IndexOf(data[j]))
  {
    hide TotalChunks, DataMessage, DataOk, IndexOf, BytesOf, SliceAt;
    var h, orig := Header(tid, TotalChunks(|blob|, c), |blob|), DataMessages(blob, c, tid);
    assert |data| == |multiset(data)| == |multiset(orig)| == |orig|;
    forall j | 0 <= j < |data|
      ensures DataOk(data[j], h) && IndexOf(data[j]) < h.chunks
      ensures data[j] == DataMessageAt(blob, c, tid, IndexOf(data[j]))
      ensures BytesOf(data[j], h) == SliceAt(blob, c, IndexOf(data[j]))
    {
      assert data[j] in multiset(orig);
      var i :| 0 <= i < |orig| && orig[i] == data[j];
      DataMessageAtIsOk(blob, c, tid, i);
    }
    forall j, k | 0 <= j < k < |data| ensures IndexOf(data[j]) != IndexOf(data[k]) {
      if IndexOf(data[j]) == IndexOf(data[k]) {
        OnceOnly(data, j, k);
        SingleCopies(blob, c, tid, data[j]);
      }
    }
  }

  function SliceAt(blob: seq<Byte>, c: U64, i: nat): seq<Byte>
    requires 0 < |blob| < TWO_64 && c > 0 && i < TotalChunks(|blob|, c)
  {
    ChunkStartsInside(|blob|, c, i);
    Slice(blob, c, i)
  }

  lemma DataMessageAtIsOk(blob: seq<Byte>, c: U64, tid: string, i: nat)
    requires 0 < |blob| < TWO_64 && c > 0 && i < TotalChunks(|blob|, c)
    ensures var h, m := Header(tid, TotalChunks(|blob|, c), |blob|), DataMessageAt(blob, c, tid, i);
            DataOk(m, h) && IndexOf(m) == i && BytesOf(m, h) == SliceAt(blob, c, i)
  {
    ChunkStartsInside(|blob|, c, i);
    DataMessageIsOk(tid, i, Header(tid, TotalChunks(|blob|, c), |blob|), Slice(blob, c, i));
  }

  // The original data messages are all different.
  lemma SingleCopies(blob: seq<Byte>, c: U64, tid: string, m: Message)
    requires 0 < |blob| < TWO_64 && c > 0
    ensures multiset(DataMessages(blob, c, tid))[m] <= 1
  {
    var orig := DataMessages(blob, c, tid);
    forall j, k | 0 <= j < k < |orig| ensures orig[j] != orig[k] {
      DataMessageAtIsOk(blob, c, tid, j);
      DataMessageAtIsOk(blob, c, tid, k);
    }
    CopiesInDistinct(orig, m);
  }

  lemma {:induction false} CopiesInDistinct<T>(s: seq<T>, x: T)
    requires forall j, k :: 0 <= j < k < |s| ==> s[j] != s[k]
    ensures multiset(s)[x] <= 1
  {
    if s == [] {
    } else {
      var n := |s| - 1;
      assert s == s[..n] + [s[n]];
      CopiesInDistinct(s[..n], x);
    }
  }

  // The slices, joined in order, are a prefix of the blob.
  lemma {:induction false} SlicesJoin(blob: seq<Byte>, c: U64, parts: map<nat, seq<Byte>>, n: nat)
    requires 0 < |blob| < TWO_64 && c > 0 && n <= TotalChunks(|blob|, c)
    requires forall i :: 0 <= i < n ==> i in parts && parts[i] == SliceAt(blob, c, i)
    ensures Joined(parts, n) == blob[..Min(n * c, |blob|)]
  {
    hide TotalChunks, Slice;
    if n == 0 {
    } else {
      SlicesJoin(blob, c, parts, n - 1);
      ChunkStartsInside(|blob|, c, n - 1);
      NextSlice(blob, c, n - 1);
      assert Piece(parts, n - 1) == SliceAt(blob, c, n - 1) == Slice(blob, c, n - 1);
    }
  }

  lemma NextSlice(blob: seq<Byte>, c: nat, i: nat)
    requires i * c <= |blob|
    ensures blob[..Min(i * c, |blob|)] + Slice(blob, c, i) == blob[..Min((i + 1) * c, |blob|)]
  {
    var at := i * c;
    assert (i + 1) * c == at + c;
    assert blob[..at] + blob[at..at + Min(c, |blob| - at)] == blob[..at + Min(c, |blob| - at)];
  }

  // Without wrap-around the chunks cover the blob; with it they fall short.
  lemma Coverage(n: U64, c: U64)
    requires n > 0 && c > 0
    ensures n <= TotalChunks(n, c) * c <==> n + c - 1 < TWO_64
    ensures TotalChunks(n, c) <= n
  {
    var t := TotalChunks(n, c);
    WrapCases(n + c - 1);
    if t > 0 {
      ChunkStartsInside(n, c, t - 1);
      MulMonotone(1, c, t - 1);
      assert 1 * (t - 1) == t - 1 && c * (t - 1) == (t - 1) * c;
    }
  }

  lemma WrapCases(x: nat)
    requires x < 2 * TWO_64
    ensures Wrapped(x) == if x < TWO_64 then x else x - TWO_64
  {
  }

  lemma ShuffledParts(blob: seq<Byte>, c: U64, tid: string, data: seq<Message>)
    requires 0 < |blob| < TWO_64 && c > 0 && multiset(data) == multiset(DataMessages(blob, c, tid))
    ensures var h := Header(tid, TotalChunks(|blob|, c), |blob|);
            var covered := blob[..Min(h.chunks * c, |blob|)];
            && |data| == h.chunks && Scan(data, h).Some? && Joined(Scan(data, h).value, h.chunks) == covered
            && Volume(data) == |covered|
            && forall i :: 0 <= i < h.chunks ==> i in Scan(data, h).value
  {
    hide TotalChunks, SliceAt, Scan, Volume, Joined, DataMessages;
    var h := Header(tid, TotalChunks(|blob|, c), |blob|);
    PartsAreSlices(blob, c, tid, data);
    var parts := Scan(data, h).value;
    SlicesJoin(blob, c, parts, h.chunks);
    VolumeIsSizes(data, h);
    JoinedSize(parts, h.chunks);
  }

  lemma PartsAreSlices(blob: seq<Byte>, c: U64, tid: string, data: seq<Message>)
    requires 0 < |blob| < TWO_64 && c > 0 && multiset(data) == multiset(DataMessages(blob, c, tid))
    ensures var h := Header(tid, TotalChunks(|blob|, c), |blob|);
            && |data| == h.chunks && Scan(data, h).Some?
            && forall i :: 0 <= i < h.chunks ==>
                 i in Scan(data, h).value && Scan(data, h).value[i] == SliceAt(blob, c, i)
  {
    hide DataOk, IndexOf, BytesOf, TotalChunks, SliceAt, Scan, DataMessageAt;
    var h := Header(tid, TotalChunks(|blob|, c), |blob|);
    ShuffledData(blob, c, tid, data);
    ScanAccepts(data, h);
    EveryIndexSeen(data, h);
    var parts := Scan(data, h).value;
    forall i | 0 <= i < h.chunks ensures parts[i] == SliceAt(blob, c, i) {
      assert i in parts;
      var j :| 0 <= j < |data| && IndexOf(data[j]) == i;
    }
  }

  // For every non-empty blob (of a size a vector can have) and every chunk size: the messages that BlobToChunk makes,
  // with the data messages in any order, reassemble to exactly the blob if and only if size + chunk size - 1 fits in
  // 64 bits; otherwise reassembly refuses them.
  lemma BlobRoundTrip(blob: seq<Byte>, c: U64, tid: string, file: string, data: seq<Message>)
    requires 0 < |blob| < TWO_64 / 2 && c > 0 && multiset(data) == multiset(DataMessages(blob, c, tid))
    ensures Reassemble(Transfer(blob, c, tid, file, data)) == if |blob| + c - 1 < TWO_64 then Some(blob) else None
  {
    hide TotalChunks, Scan, Volume, Joined, HeaderOf;
    ShuffledParts(blob, c, tid, data);
    Coverage(|blob|, c);
    TransferHeader(blob, c, tid, file, data);
    WrapCases(Volume(data));
    assert blob[..|blob|] == blob;
  }

  // The same through JSON: every message sent as JSON and read back.
  lemma BlobRoundTripThroughJson(
    blob: seq<Byte>, c: U64, tid: string, file: string, data: seq<Message>, received: seq<Message>)
    requires 0 < |blob| < TWO_64 / 2 && c > 0 && multiset(data) == multiset(DataMessages(blob, c, tid))
    requires var sent := Transfer(blob, c, tid, file, data);
             && |received| == |sent|
             && forall k :: 0 <= k < |sent| ==> Some(received[k]) == JsonToMessage(MessageToJson(sent[k]))
    ensures Reassemble(received) == if |blob| + c - 1 < TWO_64 then Some(blob) else None
  {
    hide JsonToMessage, MessageToJson, Reassemble;
    var sent := Transfer(blob, c, tid, file, data);
    forall k | 0 <= k < |sent| ensures received[k] == sent[k] { MessageRoundTrip(sent[k]); }
    assert received == sent;
    BlobRoundTrip(blob, c, tid, file, data);
  }
}

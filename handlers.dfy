/** The bodies of the `log:out` and `log:err` bus handlers: filter the
    message, turn it into documents and hand them to `send(index, batch)`.
    The send is not performed here; a handler returns the `Effect` it has,
    and the bulk client, the bus and the logger stay outside the model. */
module Handlers {
  import opened Json
  import opened JsString
  import opened Filter
  import opened Parser

  /** A bus message: `msg.process.name`, `msg.data` and `msg.at`. */
  datatype Msg = Msg(name: string, data: string, at: Value)

  /** What handling one message amounts to: no send, exactly one
      `send(index, batch)`, or an exception escaping the handler before any
      send. */
  datatype Effect = NoSend | Send(index: string, batch: seq<Record>) | Raised

  /** `new Date(v).toISOString()`: the argument `None` is `undefined`, and the
      result `None` is the RangeError thrown for an invalid date. */
  type IsoConversion = Option<Value> -> Option<string>

  /** The single record used for the whole event when parsing throws. */
  function Fallback(msg: Msg): Record
  {
    map["raw" := Str(msg.data), "time" := msg.at]
  }

  /** The handler's `data` after its try/catch around `parse_data(msg.data)`:
      the decoded non-empty lines as they are (no `extra` is passed), or,
      when any line fails to decode, one record holding the whole payload. */
  function Items(msg: Msg, decode: string -> Option<Record>): (items: seq<Record>)
    ensures ParseData(msg.data, map[], decode).Some? ==>
      |items| == |Lines(msg.data)| &&
      forall k :: 0 <= k < |items| ==> items[k] == decode(Lines(msg.data)[k]).value
    ensures ParseData(msg.data, map[], decode).None? ==>
      |items| == 1 && items[0].Keys == {"raw", "time"} && items[0]["raw"] == Str(msg.data) && items[0]["time"] == msg.at
  {
    match ParseData(msg.data, map[], decode)
    case Some(records) => records
    case None => [Fallback(msg)]
  }

  function TimeOf(item: Record): Option<Value>
  {
    Field(item, "time")
  }

  /** `{...item, time: iso, stream: 'stdout'}`: the record's fields, with
      `time` and `stream` replaced. */
  function StdoutDocument(item: Record, iso: string): (doc: Record)
    ensures doc.Keys == item.Keys + {"time", "stream"}
    ensures doc["time"] == Str(iso) && doc["stream"] == Str("stdout")
    ensures forall k :: k in item && k != "time" && k != "stream" ==> doc[k] == item[k]
  {
    Spread(item, map["time" := Str(iso), "stream" := Str("stdout")])
  }

  /** The documents for a run of records, in order, or `None` when the time
      of some record does not convert. */
  function StampAll(items: seq<Record>, toIso: IsoConversion): (docs: Option<seq<Record>>)
    ensures docs.Some? <==> forall k :: 0 <= k < |items| ==> toIso(TimeOf(items[k])).Some?
    ensures docs.Some? ==> |docs.value| == |items|
    ensures docs.Some? ==> forall k :: 0 <= k < |items| ==>
      docs.value[k] == StdoutDocument(items[k], toIso(TimeOf(items[k])).value)
  {
    if items == [] then Some([])
    else
      match toIso(TimeOf(items[0]))
      case None => None
      case Some(iso) =>
        match StampAll(items[1..], toIso)
        case None => None
        case Some(rest) => Some([StdoutDocument(items[0], iso)] + rest)
  }

  /** What the `log:out` handler does with `msg`. */
  function LogOut(cfg: Config, msg: Msg, decode: string -> Option<Record>, toIso: IsoConversion): (e: Effect)
    ensures !ShouldProcess(cfg, msg.name) ==> e == NoSend
    ensures ShouldProcess(cfg, msg.name) ==> (e == NoSend <==> Items(msg, decode) == [])
    ensures e == Raised <==> (ShouldProcess(cfg, msg.name) &&
      exists k :: 0 <= k < |Items(msg, decode)| && toIso(TimeOf(Items(msg, decode)[k])).None?)
    ensures e.Send? ==> e.index == msg.name && |e.batch| == |Items(msg, decode)|
    ensures e.Send? ==> forall k :: 0 <= k < |e.batch| ==>
      && e.batch[k].Keys == Items(msg, decode)[k].Keys + {"time", "stream"}
      && e.batch[k]["stream"] == Str("stdout")
      && e.batch[k]["time"] == Str(toIso(TimeOf(Items(msg, decode)[k])).value)
  {
    if !ShouldProcess(cfg, msg.name) then NoSend
    else
      var items := Items(msg, decode);
      if items == [] then NoSend
      else
        match StampAll(items, toIso)
        case None => Raised
        case Some(docs) => Send(msg.name, docs)
  }

  /** The `for (const item of data)` loop of the `log:out` handler: push one
      stamped document per record onto the batch, in order; `None` when a
      time conversion throws part-way. */
  method PushDocuments(data: seq<Record>, toIso: IsoConversion) returns (datasource: Option<seq<Record>>)
    ensures datasource == StampAll(data, toIso)
  {
    var docs: seq<Record> := [];
    for i := 0 to |data|
      invariant |docs| == i
      invariant forall j :: 0 <= j < i ==> toIso(TimeOf(data[j])).Some?
      invariant forall j :: 0 <= j < i ==> docs[j] == StdoutDocument(data[j], toIso(TimeOf(data[j])).value)
    {
      var iso := toIso(TimeOf(data[i]));
      if iso.None? {
        return None;
      }
      docs := docs + [StdoutDocument(data[i], iso.value)];
    }
    assert StampAll(data, toIso).Some?;
    assert StampAll(data, toIso).value == docs;
    return Some(docs);
  }

  /** The `log:out` handler: parse, fall back to one raw record for the whole
      event, stamp each record while pushing it onto the batch, and send the
      batch when it is not empty. */
  method HandleLogOut(cfg: Config, msg: Msg, decode: string -> Option<Record>, toIso: IsoConversion)
    returns (e: Effect)
    ensures e == LogOut(cfg, msg, decode, toIso)
  {
    e := NoSend;
    if ShouldProcess(cfg, msg.name) {
      var data: seq<Record>;
      match ParseData(msg.data, map[], decode) {
        case Some(records) => data := records;
        case None => data := [Fallback(msg)];
      }
      assert data == Items(msg, decode);
      if |data| > 0 {
        var datasource := PushDocuments(data, toIso);
        match datasource {
          case None => e := Raised;
          case Some(docs) => e := Send(msg.name, docs);
        }
      }
    }
  }

  /** When parsing throws, the batch is one document carrying the whole
      unsplit payload as `raw` and the converted `msg.at` as `time`. */
  lemma LogOutFallback(cfg: Config, msg: Msg, decode: string -> Option<Record>, toIso: IsoConversion)
    requires ShouldProcess(cfg, msg.name)
    requires ParseData(msg.data, map[], decode).None?
    ensures toIso(Some(msg.at)).None? ==> LogOut(cfg, msg, decode, toIso) == Raised
    ensures toIso(Some(msg.at)).Some? ==> (LogOut(cfg, msg, decode, toIso) ==
      Send(msg.name, [map["raw" := Str(msg.data), "time" := Str(toIso(Some(msg.at)).value), "stream" := Str("stdout")]]))
  {
    var items := Items(msg, decode);
    assert items == [Fallback(msg)];
    assert TimeOf(items[0]) == Some(msg.at);
    if toIso(Some(msg.at)).Some? {
      var doc := StdoutDocument(Fallback(msg), toIso(Some(msg.at)).value);
      assert doc == map["raw" := Str(msg.data), "time" := Str(toIso(Some(msg.at)).value), "stream" := Str("stdout")];
      assert StampAll(items, toIso).value == [doc];
    }
  }

  /** When parsing succeeds there is one document per non-empty line, and a
      payload with no non-empty line sends nothing. */
  lemma LogOutParsed(cfg: Config, msg: Msg, decode: string -> Option<Record>, toIso: IsoConversion)
    requires ShouldProcess(cfg, msg.name)
    requires ParseData(msg.data, map[], decode).Some?
    ensures LogOut(cfg, msg, decode, toIso) == NoSend <==> Lines(msg.data) == []
    ensures LogOut(cfg, msg, decode, toIso).Send? ==> |LogOut(cfg, msg, decode, toIso).batch| == |Lines(msg.data)|
  {
    assert Items(msg, decode) == ParseData(msg.data, map[], decode).value;
  }

  /** A decoded record is not given `msg.at` as its time: when `undefined`
      does not convert, one without a `time` field makes the handler throw,
      and nothing of the event is sent. */
  lemma LogOutMissingTime(cfg: Config, msg: Msg, decode: string -> Option<Record>, toIso: IsoConversion, k: nat)
    requires ShouldProcess(cfg, msg.name)
    requires ParseData(msg.data, map[], decode).Some?
    requires k < |ParseData(msg.data, map[], decode).value|
    requires "time" !in ParseData(msg.data, map[], decode).value[k]
    requires toIso(None).None?
    ensures LogOut(cfg, msg, decode, toIso) == Raised
  {
    var items := Items(msg, decode);
    assert items == ParseData(msg.data, map[], decode).value;
    assert TimeOf(items[k]) == None;
  }

  /** The payload `{"msg":"hi"}`, newline, ` not-json`, newline does not
      parse as a whole once its second line does not decode. */
  lemma ExamplePayloadFails(decode: string -> Option<Record>)
    requires decode(" not-json").None?
    ensures ParseData("{\"msg\":\"hi\"}\n not-json\n", map[], decode).None?
  {
    var first, second := "{\"msg\":\"hi\"}", " not-json";
    assert first + "\n" + (second + "\n") == "{\"msg\":\"hi\"}\n not-json\n";
    LinesSingle(second);
    LinesTrailingNewline(second);
    ParseDataConcat(first, second + "\n", map[], decode);
  }

  /** A payload with one undecodable line is not split into per-line records:
      the whole event falls back to a single raw document. */
  lemma WholeEventFallback(cfg: Config, decode: string -> Option<Record>, toIso: IsoConversion, name: string, at: Value)
    requires ShouldProcess(cfg, name)
    requires decode(" not-json").None?
    requires toIso(Some(at)).Some?
    ensures var payload := "{\"msg\":\"hi\"}\n not-json\n";
      LogOut(cfg, Msg(name, payload, at), decode, toIso) ==
        Send(name, [map["raw" := Str(payload), "time" := Str(toIso(Some(at)).value), "stream" := Str("stdout")]])
  {
    ExamplePayloadFails(decode);
    LogOutFallback(cfg, Msg(name, "{\"msg\":\"hi\"}\n not-json\n", at), decode, toIso);
  }

  /** What the `log:err` handler does with `msg`: at most one `stderr`
      document, whose `raw` is the payload with its surrounding white space
      removed and whose `time` is the Date object built from `msg.at`. */
  function LogErr(cfg: Config, msg: Msg): (e: Effect)
    ensures e != Raised
    ensures e == NoSend <==> !ShouldProcess(cfg, msg.name) || AllSpace(msg.data)
    ensures e.Send? ==> e.index == msg.name && |e.batch| == 1
    ensures e.Send? ==>
      var doc := e.batch[0];
      && doc.Keys == {"raw", "time", "stream"}
      && doc["stream"] == Str("stderr")
      && doc["time"] == Date(msg.at)
      && doc["raw"].Str? && doc["raw"].s != []
      && !IsSpace(doc["raw"].s[0]) && !IsSpace(doc["raw"].s[|doc["raw"].s| - 1])
      && exists i :: TrimmedAt(msg.data, doc["raw"].s, i)
  {
    if ShouldProcess(cfg, msg.name) then
      var data := Trim(msg.data);
      if data != [] then
        var doc := map["raw" := Str(data), "time" := Date(msg.at), "stream" := Str("stderr")];
        assert doc.Keys == {"raw", "time", "stream"} && doc["raw"] == Str(data);
        Send(msg.name, [doc])
      else NoSend
    else NoSend
  }
}

/** `parse_data(raw, extra)`: split a stdout payload into lines, drop the
    empty ones, JSON-decode each and spread `extra` over it. One undecodable
    line makes the whole call fail. JSON decoding itself is a parameter:
    `decode(line)` is `None` when `JSON.parse(line)` throws, and otherwise the
    fields that spreading the decoded value contributes. */
module Parser {
  import opened Json
  import opened JsString

  /** `ps.filter(x => !!x)` on strings: the non-empty ones, in order. */
  function NonEmpty(ps: seq<string>): (r: seq<string>)
    ensures |r| <= |ps|
    ensures forall k :: 0 <= k < |r| ==> r[k] != [] && r[k] in ps
    ensures forall x :: x in ps && x != [] ==> x in r
  {
    if ps == [] then []
    else if ps[0] == [] then NonEmpty(ps[1..])
    else [ps[0]] + NonEmpty(ps[1..])
  }

  lemma {:induction false} NonEmptyAppend(a: seq<string>, b: seq<string>)
    ensures NonEmpty(a + b) == NonEmpty(a) + NonEmpty(b)
    decreases |a|
  {
    if a != [] {
      assert (a + b)[1..] == a[1..] + b;
      NonEmptyAppend(a[1..], b);
    } else {
      assert a + b == b;
    }
  }

  /** The non-empty lines of a payload, in order. */
  function Lines(raw: string): (ls: seq<string>)
    ensures forall k :: 0 <= k < |ls| ==> ls[k] != [] && '\n' !in ls[k]
    ensures |ls| <= Count(raw, '\n') + 1
  {
    SplitCount(raw, '\n');
    NonEmpty(Split(raw, '\n'))
  }

  /** The lines of two payloads joined by a newline are the lines of the first
      followed by the lines of the second. */
  lemma LinesConcat(a: string, b: string)
    ensures Lines(a + "\n" + b) == Lines(a) + Lines(b)
  {
    SplitConcat(a, b, '\n');
    NonEmptyAppend(Split(a, '\n'), Split(b, '\n'));
  }

  /** A trailing newline adds no line. */
  lemma LinesTrailingNewline(raw: string)
    ensures Lines(raw + "\n") == Lines(raw)
  {
    LinesConcat(raw, "");
    assert raw + "\n" + "" == raw + "\n";
  }

  /** A non-empty payload without a newline is a single line. */
  lemma LinesSingle(raw: string)
    requires raw != [] && '\n' !in raw
    ensures Lines(raw) == [raw]
  {
    SplitNoSep(raw, '\n');
  }

  /** `lines.map(x => ({...JSON.parse(x), ...extra}))`: one record per line in
      line order, or `None` when any line fails to decode. */
  function DecodeAll(lines: seq<string>, extra: Record, decode: string -> Option<Record>): (r: Option<seq<Record>>)
    ensures r.Some? <==> forall k :: 0 <= k < |lines| ==> decode(lines[k]).Some?
    ensures r.Some? ==> |r.value| == |lines|
    ensures r.Some? ==> forall k :: 0 <= k < |lines| ==> r.value[k] == Spread(decode(lines[k]).value, extra)
  {
    if lines == [] then Some([])
    else
      match decode(lines[0])
      case None => None
      case Some(buf) =>
        match DecodeAll(lines[1..], extra, decode)
        case None => None
        case Some(rest) => Some([Spread(buf, extra)] + rest)
  }

  /** `parse_data(raw, extra)`: succeeds exactly when every non-empty line
      decodes, and then gives one record per non-empty line, in line order,
      each the decoded fields with `extra` spread over them. */
  function ParseData(raw: string, extra: Record, decode: string -> Option<Record>): (r: Option<seq<Record>>)
    ensures r.Some? <==> forall k :: 0 <= k < |Lines(raw)| ==> decode(Lines(raw)[k]).Some?
    ensures r.Some? ==> |r.value| == |Lines(raw)|
    ensures r.Some? ==> forall k :: 0 <= k < |Lines(raw)| ==>
      r.value[k] == Spread(decode(Lines(raw)[k]).value, extra)
  {
    DecodeAll(Lines(raw), extra, decode)
  }

  /** The success half of `DecodeAllAppend`, proved on its own so that each
      proof stays small; `DecodeAllAppend` restates it beside the records. */
  lemma DecodeAllAppendSome(a: seq<string>, b: seq<string>, extra: Record, decode: string -> Option<Record>)
    ensures DecodeAll(a + b, extra, decode).Some? <==> DecodeAll(a, extra, decode).Some? && DecodeAll(b, extra, decode).Some?
  {
    var ab := a + b;
    if DecodeAll(ab, extra, decode).Some? {
      forall k | 0 <= k < |a| ensures decode(a[k]).Some? {
        assert a[k] == ab[k];
      }
      forall k | 0 <= k < |b| ensures decode(b[k]).Some? {
        assert b[k] == ab[|a| + k];
      }
    }
    if DecodeAll(a, extra, decode).Some? && DecodeAll(b, extra, decode).Some? {
      forall k | 0 <= k < |ab| ensures decode(ab[k]).Some? {
        if k < |a| { assert ab[k] == a[k]; } else { assert ab[k] == b[k - |a|]; }
      }
    }
  }

  /** Decoding two runs of lines succeeds exactly when both succeed, and then
      gives the records of the first run followed by those of the second. */
  lemma DecodeAllAppend(a: seq<string>, b: seq<string>, extra: Record, decode: string -> Option<Record>)
    ensures DecodeAll(a + b, extra, decode).Some? <==> DecodeAll(a, extra, decode).Some? && DecodeAll(b, extra, decode).Some?
    ensures DecodeAll(a + b, extra, decode).Some? ==>
      DecodeAll(a + b, extra, decode).value == DecodeAll(a, extra, decode).value + DecodeAll(b, extra, decode).value
  {
    DecodeAllAppendSome(a, b, extra, decode);
    var ab := a + b;
    var r, ra, rb := DecodeAll(ab, extra, decode), DecodeAll(a, extra, decode), DecodeAll(b, extra, decode);
    if r.Some? {
      forall k | 0 <= k < |ab| ensures r.value[k] == (ra.value + rb.value)[k] {
        if k < |a| { assert ab[k] == a[k]; } else { assert ab[k] == b[k - |a|]; }
      }
    }
  }

  /** Parsing a payload made of two parts joined by a newline is parsing each
      part: it fails if either fails, and otherwise the records concatenate. */
  lemma ParseDataConcat(a: string, b: string, extra: Record, decode: string -> Option<Record>)
    ensures ParseData(a + "\n" + b, extra, decode).Some? <==> ParseData(a, extra, decode).Some? && ParseData(b, extra, decode).Some?
    ensures ParseData(a + "\n" + b, extra, decode).Some? ==>
      ParseData(a + "\n" + b, extra, decode).value == ParseData(a, extra, decode).value + ParseData(b, extra, decode).value
  {
    LinesConcat(a, b);
    DecodeAllAppend(Lines(a), Lines(b), extra, decode);
  }

  /** Each record holds the decoded line's fields with `extra` overriding
      same-named ones. */
  lemma ParseDataRecord(raw: string, extra: Record, decode: string -> Option<Record>, k: nat, key: string)
    requires ParseData(raw, extra, decode).Some?
    requires k < |ParseData(raw, extra, decode).value|
    ensures k < |Lines(raw)| && decode(Lines(raw)[k]).Some?
    ensures var rec := ParseData(raw, extra, decode).value[k];
      && (key in rec <==> key in extra || key in decode(Lines(raw)[k]).value)
      && (key in extra ==> rec[key] == extra[key])
      && (key !in extra && key in decode(Lines(raw)[k]).value ==> rec[key] == decode(Lines(raw)[k]).value[key])
  {
  }
}

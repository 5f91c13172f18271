/** Latency events as the flat text fields of a stream entry, and back. */
module EventCodec {

  datatype Option<T> = None | Some(value: T)

  datatype LatencyEvent = LatencyEvent(
    submissionId: string,
    orderId: string,
    sentTsNs: int,
    receivedTsNs: Option<int>,
    ackTsNs: Option<int>,
    intendedSendTsNs: int,
    botId: string)

  // ----- Decimal numerals -----

  predicate IsDigit(c: char) {
    '0' <= c <= '9'
  }

  function DigitOf(d: nat): (c: char)
    requires d < 10
    ensures IsDigit(c) && ValueOf(c) == d
  {
    '0' + d as char
  }

  function ValueOf(c: char): (d: nat)
    requires IsDigit(c)
    ensures d < 10
  {
    (c - '0') as nat
  }

  function PrintNat(n: nat): (s: string)
    ensures s != [] && forall i :: 0 <= i < |s| ==> IsDigit(s[i])
  {
    if n < 10 then [DigitOf(n)] else PrintNat(n / 10) + [DigitOf(n % 10)]
  }

  function PrintInt(n: int): string {
    if n < 0 then "-" + PrintNat(-n) else PrintNat(n)
  }

  /** A non-empty run of digits. */
  function ParseNat(s: string): Option<nat> {
    if s == [] || !IsDigit(s[|s| - 1]) then None
    else
      var last := ValueOf(s[|s| - 1]);
      if |s| == 1 then Some(last)
      else
        match ParseNat(s[..|s| - 1])
        case None => None
        case Some(high) => Some(10 * high + last)
  }

  /** Digits after an optional sign; `None` is the error of a text that is no numeral. */
  function ParseInt(s: string): Option<int> {
    if s != [] && (s[0] == '-' || s[0] == '+') then
      match ParseNat(s[1..])
      case None => None
      case Some(n) =>
        var v: int := n;
        Some(if s[0] == '-' then -v else v)
    else
      match ParseNat(s)
      case None => None
      case Some(n) => Some(n)
  }

  lemma {:induction false} ParsePrintedNat(n: nat)
    ensures ParseNat(PrintNat(n)) == Some(n)
  {
    if n >= 10 {
      ParsePrintedNat(n / 10);
      var s := PrintNat(n);
      assert s[..|s| - 1] == PrintNat(n / 10);
    }
  }

  predicate AllDigits(s: string) {
    s != "" && forall i :: 0 <= i < |s| ==> IsDigit(s[i])
  }

  /** Exactly the non-empty runs of digits are numerals without a sign. */
  lemma {:induction false} ParsesIffDigits(s: string)
    ensures ParseNat(s).Some? <==> AllDigits(s)
  {
    if |s| > 1 {
      var high := s[..|s| - 1];
      ParsesIffDigits(high);
      assert AllDigits(s) <==> AllDigits(high) && IsDigit(s[|s| - 1]);
    }
  }

  /** Padding with zeros changes no value. */
  lemma {:induction false} PaddingReadsAlike(s: string)
    requires s != ""
    ensures ParseNat("0" + s) == ParseNat(s)
  {
    var padded := "0" + s;
    assert padded[|padded| - 1] == s[|s| - 1];
    if |s| == 1 {
      assert padded[..1] == "0" && ParseNat("0") == Some(0);
    } else {
      PaddingReadsAlike(s[..|s| - 1]);
      assert padded[..|s|] == "0" + s[..|s| - 1];
    }
  }

  /** A sign in front of digits is read as such. */
  lemma SignsAreRead(s: string)
    requires AllDigits(s)
    ensures ParseNat(s).Some?
    ensures var n: int := ParseNat(s).value;
            ParseInt(s) == Some(n) && ParseInt("+" + s) == Some(n) && ParseInt("-" + s) == Some(-n)
  {
    ParsesIffDigits(s);
    assert ("+" + s)[1..] == s && ("-" + s)[1..] == s;
  }

  /** Nothing else is an integer. */
  lemma ReadsIffNumeral(s: string)
    ensures ParseInt(s).Some? <==> AllDigits(s) || (s != "" && (s[0] == '-' || s[0] == '+') && AllDigits(s[1..]))
  {
    ParsesIffDigits(s);
    if s != "" {
      ParsesIffDigits(s[1..]);
    }
  }

  /** Every integer, zero and negative ones included, reads back as itself. */
  lemma ParsePrintedInt(n: int)
    ensures PrintInt(n) != "" && ParseInt(PrintInt(n)) == Some(n)
  {
    var size := if n < 0 then -n else n;
    ParsePrintedNat(size);
    SignsAreRead(PrintNat(size));
  }

  predicate NoLeadingZero(s: string) {
    |s| > 1 ==> s[0] != '0'
  }

  /** A run of digits that is not padded with zeros is what printing its value gives. */
  lemma {:induction false} PrintParsedNat(s: string)
    requires ParseNat(s).Some?
    ensures PrintNat(ParseNat(s).value) == s <==> NoLeadingZero(s)
    ensures s[0] != '0' ==> ParseNat(s).value > 0
  {
    var n, last := ParseNat(s).value, s[|s| - 1];
    if |s| == 1 {
      assert s == [last];
    } else {
      var high := s[..|s| - 1];
      PrintParsedNat(high);
      assert s == high + [last];
      if n < 10 {
        assert |PrintNat(n)| == 1;
      } else {
        assert PrintNat(n)[..|PrintNat(n)| - 1] == PrintNat(ParseNat(high).value);
      }
    }
  }

  // ----- Entries -----

  /** A missing field reads as empty. */
  function Get(fields: map<string, string>, key: string): string {
    if key in fields then fields[key] else ""
  }

  function OptText(n: Option<int>): string {
    if n.Some? then PrintInt(n.value) else ""
  }

  function ToFields(e: LatencyEvent): map<string, string> {
    map[
      "submission_id" := e.submissionId,
      "order_id" := e.orderId,
      "sent_ts_ns" := PrintInt(e.sentTsNs),
      "received_ts_ns" := OptText(e.receivedTsNs),
      "ack_ts_ns" := OptText(e.ackTsNs),
      "intended_send_ts_ns" := PrintInt(e.intendedSendTsNs),
      "bot_id" := e.botId]
  }

  /** An integer that reads as zero when it is left out. */
  function NumberOr0(s: string): Option<int> {
    if s == "" then Some(0) else ParseInt(s)
  }

  /** An integer that may be left out; the outer `None` is a text that is no numeral. */
  function MaybeNumber(s: string): Option<Option<int>> {
    if s == "" then Some(None)
    else
      match ParseInt(s)
      case None => None
      case Some(n) => Some(Some(n))
  }

  /** `None` when a timestamp is no numeral. */
  function FromFields(fields: map<string, string>): Option<LatencyEvent> {
    var sent, received := NumberOr0(Get(fields, "sent_ts_ns")), MaybeNumber(Get(fields, "received_ts_ns"));
    var ack, intended := MaybeNumber(Get(fields, "ack_ts_ns")), NumberOr0(Get(fields, "intended_send_ts_ns"));
    if sent.None? || received.None? || ack.None? || intended.None? then None
    else
      var bot := Get(fields, "bot_id");
      Some(LatencyEvent(Get(fields, "submission_id"), Get(fields, "order_id"), sent.value, received.value, ack.value,
                        intended.value, if bot == "" then "default" else bot))
  }

  lemma MaybeNumberReads(n: Option<int>)
    ensures MaybeNumber(OptText(n)) == Some(n)
  {
    if n.Some? {
      ParsePrintedInt(n.value);
    }
  }

  /** Every event decodes, to itself but for an empty bot id, which becomes "default"; so encoding
      loses nothing exactly when the bot id is not empty. */
  lemma DecodeEncoded(e: LatencyEvent)
    ensures FromFields(ToFields(e)) == Some(if e.botId == "" then e.(botId := "default") else e)
    ensures FromFields(ToFields(e)) == Some(e) <==> e.botId != ""
  {
    var fields := ToFields(e);
    ParsePrintedInt(e.sentTsNs);
    ParsePrintedInt(e.intendedSendTsNs);
    MaybeNumberReads(e.receivedTsNs);
    MaybeNumberReads(e.ackTsNs);
    assert Get(fields, "sent_ts_ns") == PrintInt(e.sentTsNs);
    assert Get(fields, "intended_send_ts_ns") == PrintInt(e.intendedSendTsNs);
    assert Get(fields, "received_ts_ns") == OptText(e.receivedTsNs) && Get(fields, "ack_ts_ns") == OptText(e.ackTsNs);
  }

  /** Left out, or a numeral. */
  predicate Legible(fields: map<string, string>, key: string) {
    key !in fields || fields[key] == "" || ParseInt(fields[key]).Some?
  }

  /** The number of a field, if it is there. */
  function NumberAt(fields: map<string, string>, key: string): Option<int> {
    if key in fields then ParseInt(fields[key]) else None
  }

  /** Any entry decodes if and only if its four timestamps are each left out or a numeral; sending times
      left out are zero, the others are none. */
  lemma DecodesIff(fields: map<string, string>)
    ensures FromFields(fields).Some? <==>
              Legible(fields, "sent_ts_ns") && Legible(fields, "received_ts_ns")
              && Legible(fields, "ack_ts_ns") && Legible(fields, "intended_send_ts_ns")
    ensures FromFields(fields).Some? ==>
              var e := FromFields(fields).value;
              var sent, intended := NumberAt(fields, "sent_ts_ns"), NumberAt(fields, "intended_send_ts_ns");
              && e.sentTsNs == (if sent.Some? then sent.value else 0)
              && e.intendedSendTsNs == (if intended.Some? then intended.value else 0)
              && e.receivedTsNs == NumberAt(fields, "received_ts_ns") && e.ackTsNs == NumberAt(fields, "ack_ts_ns")
              && e.submissionId == (if "submission_id" in fields then fields["submission_id"] else "")
              && e.orderId == (if "order_id" in fields then fields["order_id"] else "")
              && e.botId == (if "bot_id" in fields && fields["bot_id"] != "" then fields["bot_id"] else "default")
  {
    assert ParseInt("").None?;
  }

  /** Two events with the same fields are the same event. */
  lemma EncodingIsInjective(e: LatencyEvent, f: LatencyEvent)
    requires ToFields(e) == ToFields(f)
    ensures e == f
  {
    DecodeEncoded(e);
    DecodeEncoded(f);
    assert Get(ToFields(e), "bot_id") == e.botId && Get(ToFields(f), "bot_id") == f.botId;
  }

  // ----- Latencies -----

  function ActualLatencyUs(e: LatencyEvent): Option<real> {
    if e.ackTsNs.None? then None else Some((e.ackTsNs.value - e.sentTsNs) as real / 1000.0)
  }

  function IntendedLatencyUs(e: LatencyEvent): Option<real> {
    if e.ackTsNs.None? then None else Some((e.ackTsNs.value - e.intendedSendTsNs) as real / 1000.0)
  }

  /** Both latencies are what the acknowledgement came after, in thousandths; there are none without it. */
  lemma LatencyIsElapsed(e: LatencyEvent)
    ensures ActualLatencyUs(e).Some? <==> e.ackTsNs.Some?
    ensures IntendedLatencyUs(e).Some? <==> e.ackTsNs.Some?
    ensures e.ackTsNs.Some? ==>
              e.sentTsNs as real + 1_000.0 * ActualLatencyUs(e).value == e.ackTsNs.value as real
              == e.intendedSendTsNs as real + 1_000.0 * IntendedLatencyUs(e).value
  {
  }

  lemma BotIdIsNoLatency(e: LatencyEvent, botId: string)
    ensures var d := e.(botId := botId);
            ActualLatencyUs(d) == ActualLatencyUs(e) && IntendedLatencyUs(d) == IntendedLatencyUs(e)
            && (d.ackTsNs.None? <==> e.ackTsNs.None?)
  {
  }

  /** The ingester counts an event as failed, and measures its latencies, as the bot recorded them. */
  lemma LatenciesSurvive(e: LatencyEvent) returns (d: LatencyEvent)
    ensures FromFields(ToFields(e)) == Some(d)
    ensures ActualLatencyUs(d) == ActualLatencyUs(e) && IntendedLatencyUs(d) == IntendedLatencyUs(e)
    ensures d.ackTsNs.None? <==> e.ackTsNs.None?
  {
    DecodeEncoded(e);
    BotIdIsNoLatency(e, "default");
    d := if e.botId == "" then e.(botId := "default") else e;
  }
}

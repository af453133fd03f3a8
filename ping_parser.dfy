/** Reading one ping run: ping_host takes the (ok, text) pair the process
    runner returned and fills in a result record field by field. The
    counters come from the Unix summary line if there is one and otherwise
    from the Windows one; the average round trip from the Unix rtt line if
    there is one and otherwise from the Windows "Average" line; a run
    counts as a success when some packet came back or when a reply line
    (marked "ttl=") shows up anywhere in the text. */
module PingParser {
  import opened Lexemes
  import opened PingPatterns

  /** The dictionary ping_host returns; None stands for Python's None. */
  datatype PingResult = PingResult(
    host: string,
    success: bool,
    raw: string,
    sent: Option<nat>,
    received: Option<nat>,
    lossPct: Option<real>,
    avgRttMs: Option<real>)

  /** The three fields the packet counters fill in. */
  datatype Counters = Counters(sent: Option<nat>, received: Option<nat>, lossPct: Option<real>)

  /** The reply marker looked for in the lower-cased text. */
  const TtlMarker: string := "ttl="

  /** What a Unix counters match says: int() of the two counts and float()
      of the digits in front of the '%'. */
  function UnixCounters(text: string, m: UnixSpan): (c: Counters)
    requires IsUnixMatch(text, m)
    ensures c.sent.Some? && c.received.Some? && c.lossPct.Some?
    ensures c.lossPct.value >= 0.0
  {
    Counters(
      Some(RunValue(text, m.start, m.sentEnd)),
      Some(RunValue(text, m.recvStart, m.recvEnd)),
      Some(RunValue(text, m.lossStart, m.lossEnd) as real))
  }

  /** What a Windows counters match says: the two counts, and the loss as
      lost / sent * 100, left unset when nothing was sent. */
  function WindowsCounters(text: string, w: WindowsSpan): (c: Counters)
    requires IsWindowsMatch(text, w)
    ensures c.sent.Some? && c.received.Some?
    ensures c.lossPct.None? <==> c.sent.value == 0
    ensures c.lossPct.Some? ==> c.lossPct.value >= 0.0
  {
    var sent := RunValue(text, w.start + |SentEq|, w.sentEnd);
    var lost := RunValue(text, w.recvEnd + |LostEq|, w.lostEnd);
    Counters(
      Some(sent),
      Some(RunValue(text, w.sentEnd + |ReceivedEq|, w.recvEnd)),
      if sent == 0 then None else Some((lost as real / sent as real) * 100.0))
  }

  /** The counters of a ping text: the Unix line wins over the Windows one,
      and with neither all three are unset. */
  function ParseCounters(text: string): (c: Counters)
    ensures c.sent.Some? <==> c.received.Some?
    ensures c.lossPct.Some? ==> c.sent.Some?
  {
    var unix := SearchUnix(text);
    if unix.Some? then UnixCounters(text, unix.value)
    else
      var windows := SearchWindows(text);
      if windows.Some? then WindowsCounters(text, windows.value)
      else Counters(None, None, None)
  }

  /** The text the rtt line's second group captured: the average. */
  function RttAverageText(text: string, m: RttSpan): (t: string)
    requires IsRttMatch(text, m)
    ensures |t| > 0 && forall k :: 0 <= k < |t| ==> InClass(t[k], DigitOrDot)
  {
    text[m.minEnd + 1..m.avgEnd]
  }

  /** The text the Windows average line's group captured. */
  function AverageText(text: string, m: AverageSpan): (t: string)
    requires IsAverageMatch(text, m)
    ensures |t| > 0 && AllDigits(t) && forall k :: 0 <= k < |t| ==> InClass(t[k], DigitOrDot)
  {
    text[m.start + |AverageEq|..m.digitsEnd]
  }

  /** The average round trip of a ping text: float() of the rtt line's
      capture when there is an rtt line (unset when float() raises), else
      float() of the Windows average, else unset. */
  function ParseAverage(text: string): (avg: Option<real>)
    ensures SearchRtt(text).Some? ==> (avg.Some? <==> IsFloatText(RttAverageText(text, SearchRtt(text).value)))
  {
    var rtt := SearchRtt(text);
    if rtt.Some? then ParseFloat(RttAverageText(text, rtt.value))
    else
      var average := SearchAverage(text);
      if average.Some? then ParseFloat(AverageText(text, average.value))
      else None
  }

  /** The success rule: a positive received count, or a reply marker in
      the text whatever the case of its letters. */
  predicate Reached(received: Option<nat>, text: string) {
    (received.Some? && received.value > 0) || Contains(Lower(text), TtlMarker)
  }

  /** The record ping_host returns for a process run that ended with
      (ok, out): the specification PingHost is proved against. */
  function ExpectedPing(host: string, ok: bool, out: string): (r: PingResult)
    ensures r.host == host && r.raw == out
  {
    if !ok then PingResult(host, false, out, None, None, None, None)
    else
      var c := ParseCounters(out);
      PingResult(host, Reached(c.received, out), out, c.sent, c.received, c.lossPct, ParseAverage(out))
  }

  /** ping_host after the process has run: start from the all-unset
      record, return it at once when the run failed, and otherwise update
      it from each pattern in turn. */
  method PingHost(host: string, ok: bool, out: string) returns (result: PingResult)
    ensures result == ExpectedPing(host, ok, out)
  {
    result := PingResult(host, false, out, None, None, None, None);
    if !ok {
      return;
    }
    var text := out;

    var m := SearchUnix(text);
    if m.Some? {
      var counters := UnixCounters(text, m.value);
      result := result.(sent := counters.sent, received := counters.received, lossPct := counters.lossPct);
    } else {
      var m2 := SearchWindows(text);
      if m2.Some? {
        var counters := WindowsCounters(text, m2.value);
        result := result.(sent := counters.sent, received := counters.received, lossPct := counters.lossPct);
      }
    }
    ghost var c := ParseCounters(text);
    assert result == PingResult(host, false, out, c.sent, c.received, c.lossPct, None);

    var m3 := SearchRtt(text);
    if m3.Some? {
      var avg := ParseFloat(RttAverageText(text, m3.value));
      if avg.Some? {
        result := result.(avgRttMs := avg);
      }
    } else {
      var m4 := SearchAverage(text);
      if m4.Some? {
        var avg := ParseFloat(AverageText(text, m4.value));
        if avg.Some? {
          result := result.(avgRttMs := avg);
        }
      }
    }
    assert result == PingResult(host, false, out, c.sent, c.received, c.lossPct, ParseAverage(text));

    if result.received.Some? && result.received.value > 0 {
      result := result.(success := true);
    } else if Contains(Lower(text), TtlMarker) {
      result := result.(success := true);
    }
  }

  // -------------------------------------------------------------------------
  // Properties of a parsed ping run
  // -------------------------------------------------------------------------

  /** A process run that failed leaves every parsed field unset and the run
      unsuccessful; the text is kept as the raw output. */
  lemma FailedRunLeavesAllUnset(host: string, out: string)
    ensures var r := ExpectedPing(host, false, out);
            !r.success && r.raw == out
            && r.sent.None? && r.received.None? && r.lossPct.None? && r.avgRttMs.None?
  {
  }

  /** Whenever the text has a Unix counters match anywhere, the counters
      come from it: from the match backtracking reaches first, whatever the
      Windows line says. */
  lemma UnixCountersTakePrecedence(host: string, out: string, m': UnixSpan)
    requires IsUnixMatch(out, m')
    ensures SearchUnix(out).Some? && UnixNoLater(SearchUnix(out).value, m')
    ensures var r := ExpectedPing(host, true, out);
            var m := SearchUnix(out).value;
            r.sent == Some(RunValue(out, m.start, m.sentEnd))
            && r.received == Some(RunValue(out, m.recvStart, m.recvEnd))
            && r.lossPct == Some(RunValue(out, m.lossStart, m.lossEnd) as real)
  {
    UnixSearchFirst(out, m');
  }

  /** Without a Unix match the Windows line supplies the counters, from its
      leftmost occurrence; the loss is lost / sent * 100 and is unset
      exactly when sent is 0. */
  lemma WindowsCountersAsFallback(host: string, out: string, w': WindowsSpan)
    requires !exists m :: IsUnixMatch(out, m)
    requires IsWindowsMatch(out, w')
    ensures SearchWindows(out).Some? && SearchWindows(out).value.start <= w'.start
    ensures var r := ExpectedPing(host, true, out);
            var w := SearchWindows(out).value;
            var sent := RunValue(out, w.start + |SentEq|, w.sentEnd);
            var lost := RunValue(out, w.recvEnd + |LostEq|, w.lostEnd);
            r.sent == Some(sent)
            && r.received == Some(RunValue(out, w.sentEnd + |ReceivedEq|, w.recvEnd))
            && (sent == 0 ==> r.lossPct.None?)
            && (sent != 0 ==> r.lossPct == Some((lost as real / sent as real) * 100.0))
  {
    WindowsSearchFirst(out, w');
    UnixFoundIff(out);
    assert ParseCounters(out) == WindowsCounters(out, SearchWindows(out).value);
  }

  /** With neither counters line the three counters stay unset. */
  lemma NoCountersWithoutSummary(host: string, out: string)
    requires !exists m :: IsUnixMatch(out, m)
    requires !exists w :: IsWindowsMatch(out, w)
    ensures var r := ExpectedPing(host, true, out);
            r.sent.None? && r.received.None? && r.lossPct.None?
  {
    UnixFoundIff(out);
    WindowsFoundIff(out);
  }

  /** Whenever the text has an rtt line, the average comes from the first
      one, even when its capture is not a number (then it stays unset and
      the Windows average is not consulted). */
  lemma RttLineTakesPrecedence(host: string, out: string, m': RttSpan)
    requires IsRttMatch(out, m')
    ensures SearchRtt(out).Some? && SearchRtt(out).value.start <= m'.start
    ensures var r := ExpectedPing(host, true, out);
            var t := RttAverageText(out, SearchRtt(out).value);
            r.avgRttMs == ParseFloat(t) && (r.avgRttMs.None? <==> !IsFloatText(t))
  {
    RttSearchFirst(out, m');
  }

  /** Without an rtt line the Windows average supplies the round trip,
      as a whole number of milliseconds. */
  lemma AverageLineAsFallback(host: string, out: string, a': AverageSpan)
    requires !exists m :: IsRttMatch(out, m)
    requires IsAverageMatch(out, a')
    ensures SearchAverage(out).Some? && SearchAverage(out).value.start <= a'.start
    ensures var r := ExpectedPing(host, true, out);
            var a := SearchAverage(out).value;
            r.avgRttMs == Some(RunValue(out, a.start + |AverageEq|, a.digitsEnd) as real)
  {
    AverageSearchFirst(out, a');
    RttFoundIff(out);
    var t := AverageText(out, SearchAverage(out).value);
    assert CountChar(t, '.') == 0 && IsDigit(t[0]);
    assert IsFloatText(t);
  }

  /** The success flag: a run succeeds exactly when the process ran and
      either a positive received count was parsed or "ttl=" occurs in the
      lower-cased text. */
  lemma SuccessIff(host: string, ok: bool, out: string)
    ensures var r := ExpectedPing(host, ok, out);
            r.success <==> ok && ((r.received.Some? && r.received.value > 0)
                                  || exists i :: 0 <= i && LiteralAt(Lower(out), i, TtlMarker))
  {
    ContainsIff(Lower(out), TtlMarker);
  }

  /** The reply marker `ttl=` written with either case in each letter. */
  predicate TtlMarkerAt(s: string, i: nat) {
    i + 4 <= |s| && s[i] in {'t', 'T'} && s[i + 1] in {'t', 'T'} && s[i + 2] in {'l', 'L'} && s[i + 3] == '='
  }

  /** Looking for `ttl=` in the lowered text finds the marker whatever the
      case of its letters, and nothing else. */
  lemma LowerTtlAt(s: string, i: nat)
    ensures LiteralAt(Lower(s), i, TtlMarker) <==> TtlMarkerAt(s, i)
  {
    if i + 4 <= |s| {
      var t := Lower(s);
      assert t[i..i + 4] == [t[i], t[i + 1], t[i + 2], t[i + 3]];
    }
  }

  /** The success rule in terms of the raw text: a positive received
      count, or `ttl=` in any mix of cases. */
  lemma SuccessIffMarker(host: string, ok: bool, out: string)
    ensures var r := ExpectedPing(host, ok, out);
            r.success <==> ok && ((r.received.Some? && r.received.value > 0) || exists i :: TtlMarkerAt(out, i))
  {
    SuccessIff(host, ok, out);
    forall i: nat ensures LiteralAt(Lower(out), i, TtlMarker) <==> TtlMarkerAt(out, i) {
      LowerTtlAt(out, i);
    }
  }

  /** With neither an rtt line nor an `Average = Nms` line the average
      stays unset. */
  lemma NoAverageWithoutSummary(host: string, out: string)
    requires !exists m :: IsRttMatch(out, m)
    requires !exists a :: IsAverageMatch(out, a)
    ensures ExpectedPing(host, true, out).avgRttMs.None?
  {
    RttFoundIff(out);
    AverageFoundIff(out);
  }

  /** Empty output, whether or not the process ran, gives an unsuccessful
      run with every field unset. */
  lemma EmptyOutputAllUnset(host: string, ok: bool)
    ensures var r := ExpectedPing(host, ok, "");
            !r.success && r.sent.None? && r.received.None? && r.lossPct.None? && r.avgRttMs.None?
  {
    if ok {
      UnixFoundIff("");
      WindowsFoundIff("");
      RttFoundIff("");
      AverageFoundIff("");
      SuccessIff(host, ok, "");
    }
  }

  /** The Unix loss capture is `[0-9]+` right before the '%', so on a
      fractional percentage it holds only the digits after the point:
      "33.3333% packet loss" reads as 3333.0, above 100. */
  lemma FractionalLossReadsDigitsAfterPoint(host: string, out: string, m: UnixSpan)
    requires SearchUnix(out) == Some(m)
    requires m.lossEnd >= 5 && out[m.lossEnd - 5..m.lossEnd] == ".3333"
    ensures ExpectedPing(host, true, out).lossPct == Some(3333.0)
  {
    UnixLossIsDigitsBeforePercent(out);
    LossCaptureAfterPoint(out, m.lossStart, m.lossEnd);
    UnixCountersTakePrecedence(host, out, m);
  }

  /** A run of digits ending in ".3333" with no digit in front of it reads
      as 3333. */
  lemma LossCaptureAfterPoint(s: string, a: nat, e: nat)
    requires IsRun(s, a, e, Digit) && 0 < a && !IsDigit(s[a - 1])
    requires e >= 5 && s[e - 5..e] == ".3333"
    ensures a == e - 4 && RunValue(s, a, e) == 3333
  {
    assert s[e - 5] == s[e - 5..e][0];
    forall k | e - 4 <= k < e
      ensures s[k] == '3'
    {
      assert s[k] == s[e - 5..e][k - (e - 5)];
    }
    assert a == e - 4;
    assert s[a..e] == s[e - 5..e][1..] == "3333";
    assert "3333"[..3] == "333" && "333"[..2] == "33" && "33"[..1] == "3" && "3"[..0] == "";
  }
}

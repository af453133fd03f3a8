/** Three concrete ping transcripts worked through the parser: a Linux run
    with a counters line and an rtt line, a Windows summary without an
    average, and a single Windows reply line. Each example pins down the
    spans the searches find and then the record ping_host returns. */
module PingExamples {
  import opened Lexemes
  import opened PingPatterns
  import opened PingParser

  // -------------------------------------------------------------------------
  // Facts about literal text
  // -------------------------------------------------------------------------

  /** A text lacking one character of a literal holds the literal nowhere. */
  lemma NoCharNoLiteral(s: string, lit: string, k: nat)
    requires k < |lit| && forall i :: 0 <= i < |s| ==> s[i] != lit[k]
    ensures forall i: nat :: !LiteralAt(s, i, lit)
  {
    forall i: nat ensures !LiteralAt(s, i, lit) {
      if i + |lit| <= |s| {
        assert s[i..i + |lit|][k] == s[i + k];
      }
    }
  }

  /** A literal occurs wherever its characters occur one by one. */
  lemma LiteralAtChars(s: string, i: nat, lit: string)
    requires i + |lit| <= |s| && forall k :: 0 <= k < |lit| ==> s[i + k] == lit[k]
    ensures LiteralAt(s, i, lit)
  {
    assert s[i..i + |lit|] == lit;
  }

  /** A lone digit is a one-character run worth that digit. */
  lemma SingleDigit(s: string, a: nat, d: nat)
    requires a < |s| && d < 10 && s[a] == ('0' as int + d) as char
    ensures IsRun(s, a, a + 1, Digit) && RunValue(s, a, a + 1) == d
  {
    assert s[a..a + 1] == [s[a]];
    assert s[a..a + 1][..0] == [];
  }

  // -------------------------------------------------------------------------
  // A Windows summary: "Sent = 4, Received = 2, Lost = 2 (50% loss)"
  // -------------------------------------------------------------------------

  const WindowsSummary: string := "Sent = 4, Received = 2, Lost = 2 (50% loss)"

  lemma WindowsSummaryLiterals(s: string)
    requires s == WindowsSummary
    ensures LiteralAt(s, 0, SentEq) && LiteralAt(s, 8, ReceivedEq) && LiteralAt(s, 22, LostEq)
  {
    LiteralAtChars(s, 0, SentEq);
    LiteralAtChars(s, 8, ReceivedEq);
    LiteralAtChars(s, 22, LostEq);
  }

  lemma WindowsSummaryDigits(s: string)
    requires s == WindowsSummary
    ensures IsRun(s, 7, 8, Digit) && IsRun(s, 21, 22, Digit) && IsRun(s, 31, 32, Digit)
    ensures RunValue(s, 7, 8) == 4 && RunValue(s, 21, 22) == 2 && RunValue(s, 31, 32) == 2
    ensures !IsDigit(s[32])
  {
    SingleDigit(s, 7, 4);
    SingleDigit(s, 21, 2);
    SingleDigit(s, 31, 2);
  }

  lemma WindowsSummaryMatch(s: string)
    requires s == WindowsSummary
    ensures IsWindowsMatch(s, WindowsSpan(0, 8, 22, 32))
    ensures RunValue(s, 7, 8) == 4 && RunValue(s, 21, 22) == 2
    ensures RunValue(s, 31, 32) == 2 && !IsDigit(s[32])
  {
    WindowsSummaryLiterals(s);
    WindowsSummaryDigits(s);
  }

  /** The summary holds no Unix counters, no rtt line and no Average. */
  lemma WindowsSummaryOnly(s: string)
    requires s == WindowsSummary
    ensures !exists m :: IsUnixMatch(s, m)
    ensures SearchUnix(s).None? && SearchRtt(s).None? && SearchAverage(s).None?
  {
    assert forall i :: 0 <= i < |s| ==> s[i] != 'k' && s[i] != 'r' && s[i] != 'A';
    NoCharNoLiteral(s, Transmitted, 3);
    NoCharNoLiteral(s, RttWord, 0);
    NoCharNoLiteral(s, AverageEq, 0);
    UnixFoundIff(s);
    RttFoundIff(s);
    AverageFoundIff(s);
  }

  /** The Windows search finds the whole summary, the lost count ending
      before the space that follows it. */
  lemma WindowsSummarySearch(s: string)
    requires s == WindowsSummary
    ensures SearchWindows(s) == Some(WindowsSpan(0, 8, 22, 32))
  {
    WindowsSummaryMatch(s);
    var w' := WindowsSpan(0, 8, 22, 32);
    WindowsSearchFirst(s, w');
    var m := SearchWindows(s).value;
    assert !IsDigit(s[32]);
    assert m.lostEnd <= 32;
  }

  lemma WindowsSummaryIsWindowsCounters(s: string)
    requires s == WindowsSummary
    ensures IsWindowsMatch(s, WindowsSpan(0, 8, 22, 32))
    ensures ParseCounters(s) == WindowsCounters(s, WindowsSpan(0, 8, 22, 32))
  {
    WindowsSummaryMatch(s);
    WindowsSummaryOnly(s);
    WindowsSummarySearch(s);
  }

  /** The loss formula on the example's counts, kept apart so that the
      arithmetic sees only constants. */
  lemma HalfLost(lost: nat, sent: nat)
    requires lost == 2 && sent == 4
    ensures (lost as real / sent as real) * 100.0 == 50.0
  {
  }

  lemma WindowsExampleCounters(s: string)
    requires s == WindowsSummary
    ensures ParseCounters(s) == Counters(Some(4), Some(2), Some(50.0))
  {
    WindowsSummaryIsWindowsCounters(s);
    WindowsSummaryMatch(s);
    HalfLost(RunValue(s, 31, 32), RunValue(s, 7, 8));
  }

  /** Two of four packets lost is a loss of 50 percent; with no average
      line the round trip stays unset, and two replies mean reached. */
  lemma WindowsExample(host: string, s: string)
    requires s == WindowsSummary
    ensures ExpectedPing(host, true, s) == PingResult(host, true, s, Some(4), Some(2), Some(50.0), None)
  {
    WindowsSummaryOnly(s);
    WindowsExampleCounters(s);
  }

  // -------------------------------------------------------------------------
  // A single Windows reply line
  // -------------------------------------------------------------------------

  const TtlReply: string := "Reply from 8.8.8.8: bytes=32 time=5ms TTL=64"

  lemma TtlReplyNoCounters(s: string)
    requires s == TtlReply
    ensures SearchUnix(s).None? && SearchWindows(s).None?
  {
    assert forall i :: 0 <= i < |s| ==> s[i] != 'k';
    NoCharNoLiteral(s, Transmitted, 3);
    assert forall i :: 0 <= i < |s| ==> s[i] != 'S';
    NoCharNoLiteral(s, SentEq, 0);
    UnixFoundIff(s);
    WindowsFoundIff(s);
  }

  lemma TtlReplyNoAverage(s: string)
    requires s == TtlReply
    ensures SearchRtt(s).None? && SearchAverage(s).None?
  {
    assert forall i :: 0 <= i < |s| ==> s[i] != '/';
    NoCharNoLiteral(s, Slash, 0);
    assert forall i :: 0 <= i < |s| ==> s[i] != 'A';
    NoCharNoLiteral(s, AverageEq, 0);
    RttFoundIff(s);
    AverageFoundIff(s);
  }

  lemma TtlReplyMarker(s: string)
    requires s == TtlReply
    ensures LiteralAt(Lower(s), 38, TtlMarker)
  {
    var t := Lower(s);
    assert t[38] == 't' && t[39] == 't' && t[40] == 'l' && t[41] == '=';
    LiteralAtChars(t, 38, TtlMarker);
  }

  /** A Windows reply line with no summary: every counter stays unset, yet
      the host counts as reached because the lowered text holds "ttl=". */
  lemma TtlReplyExample(host: string, s: string)
    requires s == TtlReply
    ensures ExpectedPing(host, true, s) == PingResult(host, true, s, None, None, None, None)
  {
    TtlReplyNoCounters(s);
    TtlReplyNoAverage(s);
    TtlReplyMarker(s);
    SuccessIff(host, true, s);
  }

  // -------------------------------------------------------------------------
  // A Linux run: a counters line followed by an rtt line
  // -------------------------------------------------------------------------

  /** A literal inside the second of two texts, seen in the whole. */
  lemma LiteralAfter(pre: string, rest: string, i: nat, lit: string)
    requires LiteralAt(rest, i, lit)
    ensures LiteralAt(pre + rest, |pre| + i, lit)
  {
    assert (pre + rest)[|pre| + i..|pre| + i + |lit|] == rest[i..i + |lit|];
  }

  /** A literal inside the first of two texts, seen in the whole. */
  lemma LiteralBefore(part: string, post: string, i: nat, lit: string)
    requires LiteralAt(part, i, lit)
    ensures LiteralAt(part + post, i, lit)
  {
    assert (part + post)[i..i + |lit|] == part[i..i + |lit|];
  }

  /** A run inside the second of two texts, seen in the whole. */
  lemma RunAfter(pre: string, rest: string, a: nat, b: nat, cls: CharClass)
    requires IsRun(rest, a, b, cls)
    ensures IsRun(pre + rest, |pre| + a, |pre| + b, cls)
  {
    assert forall k :: a <= k < b ==> (pre + rest)[|pre| + k] == rest[k];
  }

  /** A run inside the first of two texts, seen in the whole. */
  lemma RunBefore(part: string, post: string, a: nat, b: nat, cls: CharClass)
    requires IsRun(part, a, b, cls)
    ensures IsRun(part + post, a, b, cls)
  {
  }

  const UnixCountsLine: string := "4 packets transmitted, "
  const UnixLossLine: string := "4 received, 0% packet loss\n"
  const RttHead: string := "rtt min/avg/max/mdev = "
  const RttValues: string := "10.1/12.3/15.0/1.2 ms"
  /** The two summary lines, 50 characters with the line break. */
  const UnixSummary: string := UnixCountsLine + UnixLossLine
  const UnixOutput: string := UnixSummary + (RttHead + RttValues)

  const UnixOutputSpan: UnixSpan := UnixSpan(0, 1, 2, 23, 24, 25, 35, 36, 38)
  const UnixOutputRtt: RttSpan := RttSpan(50, 70, 77, 82, 87, 91)

  /** The words of the counters pattern, found in the summary lines. */
  lemma UnixSummaryWords()
    ensures LiteralAt(UnixSummary, 2, Transmitted) && LiteralAt(UnixSummary, 25, ReceivedWord)
    ensures LiteralAt(UnixSummary, 36, "%") && LiteralAt(UnixSummary, 38, PacketLoss)
  {
    var a, b := UnixCountsLine, UnixLossLine;
    LiteralAtChars(a, 2, Transmitted);
    LiteralAtChars(b, 2, ReceivedWord);
    LiteralAtChars(b, 13, "%");
    LiteralAtChars(b, 15, PacketLoss);
    LiteralBefore(a, b, 2, Transmitted);
    LiteralAfter(a, b, 2, ReceivedWord);
    LiteralAfter(a, b, 13, "%");
    LiteralAfter(a, b, 15, PacketLoss);
  }

  lemma UnixOutputMatch(s: string)
    requires s == UnixOutput
    ensures IsUnixMatch(s, UnixOutputSpan)
    ensures RunValue(s, 0, 1) == 4 && RunValue(s, 23, 24) == 4 && RunValue(s, 35, 36) == 0
    ensures !IsDigit(s[21]) && !IsDigit(s[22]) && !IsDigit(s[33]) && !IsDigit(s[34])
  {
    var rtt := RttHead + RttValues;
    UnixSummaryWords();
    LiteralBefore(UnixSummary, rtt, 2, Transmitted);
    LiteralBefore(UnixSummary, rtt, 25, ReceivedWord);
    LiteralBefore(UnixSummary, rtt, 36, "%");
    LiteralBefore(UnixSummary, rtt, 38, PacketLoss);
    SingleDigit(s, 0, 4);
    SingleDigit(s, 23, 4);
    SingleDigit(s, 35, 0);
  }

  /** The Unix search finds the counters line, with its gaps as short as
      they can be: the characters before 4 received and 0% are not digits. */
  lemma UnixOutputSearch(s: string)
    requires s == UnixOutput
    ensures SearchUnix(s) == Some(UnixOutputSpan)
  {
    UnixOutputMatch(s);
    UnixSearchFirst(s, UnixOutputSpan);
    var m := SearchUnix(s).value;
    UnixMatchForced(s, m, UnixOutputSpan);
  }

  /** The literals of the rtt pattern, found in the rtt line. */
  lemma RttLineLiterals()
    ensures LiteralAt(RttHead + RttValues, 0, RttWord) && LiteralAt(RttHead + RttValues, 20, Equals)
    ensures LiteralAt(RttHead + RttValues, 27, Slash) && LiteralAt(RttHead + RttValues, 32, Slash)
    ensures LiteralAt(RttHead + RttValues, 37, Slash) && LiteralAt(RttHead + RttValues, 41, MsSuffix)
  {
    var h, v := RttHead, RttValues;
    LiteralAtChars(h, 0, RttWord);
    LiteralAtChars(h, 20, Equals);
    LiteralAtChars(v, 4, Slash);
    LiteralAtChars(v, 9, Slash);
    LiteralAtChars(v, 14, Slash);
    LiteralAtChars(v, 18, MsSuffix);
    LiteralBefore(h, v, 0, RttWord);
    LiteralBefore(h, v, 20, Equals);
    LiteralAfter(h, v, 4, Slash);
    LiteralAfter(h, v, 9, Slash);
    LiteralAfter(h, v, 14, Slash);
    LiteralAfter(h, v, 18, MsSuffix);
  }

  /** The name and the four numbers of the rtt line. */
  lemma RttLineRuns()
    ensures IsRun(RttHead + RttValues, 4, 20, WordOrSlash)
    ensures IsRun(RttHead + RttValues, 23, 27, DigitOrDot) && IsRun(RttHead + RttValues, 28, 32, DigitOrDot)
    ensures IsRun(RttHead + RttValues, 33, 37, DigitOrDot) && IsRun(RttHead + RttValues, 38, 41, DigitOrDot)
  {
    var h, v := RttHead, RttValues;
    assert IsRun(h, 4, 20, WordOrSlash);
    assert IsRun(v, 0, 4, DigitOrDot) && IsRun(v, 5, 9, DigitOrDot);
    assert IsRun(v, 10, 14, DigitOrDot) && IsRun(v, 15, 18, DigitOrDot);
    RunBefore(h, v, 4, 20, WordOrSlash);
    RunAfter(h, v, 0, 4, DigitOrDot);
    RunAfter(h, v, 5, 9, DigitOrDot);
    RunAfter(h, v, 10, 14, DigitOrDot);
    RunAfter(h, v, 15, 18, DigitOrDot);
  }

  lemma UnixOutputRttMatch(s: string)
    requires s == UnixOutput
    ensures IsRttMatch(s, UnixOutputRtt)
  {
    var rtt := RttHead + RttValues;
    RttLineLiterals();
    RttLineRuns();
    LiteralAfter(UnixSummary, rtt, 0, RttWord);
    LiteralAfter(UnixSummary, rtt, 20, Equals);
    LiteralAfter(UnixSummary, rtt, 27, Slash);
    LiteralAfter(UnixSummary, rtt, 32, Slash);
    LiteralAfter(UnixSummary, rtt, 37, Slash);
    LiteralAfter(UnixSummary, rtt, 41, MsSuffix);
    RunAfter(UnixSummary, rtt, 4, 20, WordOrSlash);
    RunAfter(UnixSummary, rtt, 23, 27, DigitOrDot);
    RunAfter(UnixSummary, rtt, 28, 32, DigitOrDot);
    RunAfter(UnixSummary, rtt, 33, 37, DigitOrDot);
    RunAfter(UnixSummary, rtt, 38, 41, DigitOrDot);
  }

  /** No rtt match starts before position p when nothing up to p is '=',
      the four characters before p are not 'r', and the one before p ends
      any name: a match starting earlier would need its " = " there. */
  lemma NoRttBefore(s: string, p: nat)
    requires 4 <= p < |s|
    requires forall i :: 0 <= i <= p ==> s[i] != '='
    requires forall i :: p - 4 <= i < p ==> s[i] != 'r'
    requires !InClass(s[p - 1], WordOrSlash)
    ensures forall m :: IsRttMatch(s, m) ==> m.start >= p
  {
    forall m | IsRttMatch(s, m) ensures m.start >= p {
      assert s[m.start] == 'r' by { assert s[m.start..m.start + 4][0] == s[m.start]; }
      assert s[m.nameEnd + 1] == '=' by { assert s[m.nameEnd..m.nameEnd + 3][1] == s[m.nameEnd + 1]; }
    }
  }

  /** No rtt match starts in the summary lines, which hold no '='. */
  lemma UnixOutputNoEarlierRtt(s: string)
    requires s == UnixOutput
    ensures forall m :: IsRttMatch(s, m) ==> m.start >= 50
  {
    assert forall i :: 0 <= i < |UnixCountsLine| ==> UnixCountsLine[i] != '=';
    assert forall i :: 0 <= i < |UnixLossLine| ==> UnixLossLine[i] != '=';
    assert forall i :: 23 <= i < 50 ==> UnixSummary[i] == UnixLossLine[i - 23];
    assert forall i :: 0 <= i < 50 ==> s[i] == UnixSummary[i];
    assert s[50] == 'r';
    assert s[49] == '\n';
    NoRttBefore(s, 50);
  }

  lemma UnixOutputSearchRtt(s: string)
    requires s == UnixOutput
    ensures SearchRtt(s) == Some(UnixOutputRtt)
  {
    UnixOutputRttMatch(s);
    UnixOutputNoEarlierRtt(s);
    RttSearchFirst(s, UnixOutputRtt);
  }

  lemma AverageTextOfUnixOutput(s: string)
    requires s == UnixOutput
    ensures IsRttMatch(s, UnixOutputRtt)
    ensures RttAverageText(s, UnixOutputRtt) == "12.3"
  {
    UnixOutputRttMatch(s);
    assert s[78..82] == "12.3";
  }

  /** float("12.3") is 12 and three tenths. */
  lemma ParseTwelvePointThree()
    ensures ParseFloat("12.3") == Some(12.3)
  {
    var t := "12.3";
    assert CountChar(t, '.') == 1 && IsDigit(t[0]);
    assert IndexOf(t, '.') == 2;
    assert t[..2] == "12" && t[3..] == "3";
    assert "12"[..1] == "1" && "1"[..0] == [] && "3"[..0] == [];
    assert DigitsValue("12") == 12 && DigitsValue("3") == 3;
  }

  /** A Linux run with one line of counters and one rtt line: the counters
      come from the first, the average from the second field of the
      second, and the host counts as reached. */
  lemma UnixExample(host: string, s: string)
    requires s == UnixOutput
    ensures ExpectedPing(host, true, s) == PingResult(host, true, s, Some(4), Some(4), Some(0.0), Some(12.3))
  {
    UnixOutputMatch(s);
    UnixOutputSearch(s);
    UnixCountersTakePrecedence(host, s, UnixOutputSpan);
    UnixOutputSearchRtt(s);
    RttLineTakesPrecedence(host, s, UnixOutputRtt);
    AverageTextOfUnixOutput(s);
    ParseTwelvePointThree();
  }
}

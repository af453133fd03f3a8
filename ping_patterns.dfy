/** The four regular expressions with which ping output is read, written out
    as hand-made matchers with Python `re.search` semantics: the leftmost
    start wins, `.*?` (with re.S, so across newlines) tries the shortest
    gap first, literals are case-sensitive, and every `\d+`, `\s+`,
    `[\d\.]+`, `[\w/]+` is greedy.

    Each pattern comes with a declarative predicate saying which stretches
    of text it matches (Is...Match), and a lemma saying that the matcher
    returns the match backtracking reaches first. In all four patterns each
    greedy run except the last `\d+` of the Windows counters is followed by
    a character outside its class, so greedy runs are fixed by where they
    start (RunThenComplete, UnixMatchForced); what remains to choose is the
    start and the length of each `.*?`, in that order of priority. */
module PingPatterns {
  import opened Lexemes

  // -------------------------------------------------------------------------
  // Unix counters: (\d+)\s+packets transmitted.*?(\d+)\s+received.*?([0-9]+)%\s+packet loss
  // -------------------------------------------------------------------------

  const Transmitted: string := "packets transmitted"
  const ReceivedWord: string := "received"
  const PacketLoss: string := "packet loss"

  /** Where each part of a Unix counters match lies in the text. */
  datatype UnixSpan = UnixSpan(
    start: nat, sentEnd: nat, transmittedAt: nat,
    recvStart: nat, recvEnd: nat, receivedAt: nat,
    lossStart: nat, lossEnd: nat, lossWordAt: nat)

  /** `(\d+)\s+word` at a: digits in s[a..e], white space in s[e..w], word at w. */
  predicate NumberBefore(s: string, a: nat, e: nat, w: nat, word: string) {
    IsRun(s, a, e, Digit) && IsRun(s, e, w, Space) && LiteralAt(s, w, word)
  }

  /** `([0-9]+)%\s+packet loss` at a: digits in s[a..e], '%' at e, white
      space in s[e+1..w], "packet loss" at w. */
  predicate LossPart(s: string, a: nat, e: nat, w: nat) {
    IsRun(s, a, e, Digit) && LiteralAt(s, e, "%") && IsRun(s, e + 1, w, Space) && LiteralAt(s, w, PacketLoss)
  }

  /** The stretches of s the Unix counters pattern matches. */
  predicate IsUnixMatch(s: string, m: UnixSpan) {
    NumberBefore(s, m.start, m.sentEnd, m.transmittedAt, Transmitted)
    && m.transmittedAt + |Transmitted| <= m.recvStart
    && NumberBefore(s, m.recvStart, m.recvEnd, m.receivedAt, ReceivedWord)
    && m.receivedAt + |ReceivedWord| <= m.lossStart
    && LossPart(s, m.lossStart, m.lossEnd, m.lossWordAt)
  }

  /** Backtracking priority between two Unix matches: the earlier start,
      then the shorter first gap, then the shorter second gap. */
  predicate UnixNoLater(m: UnixSpan, m': UnixSpan) {
    m.start < m'.start
    || (m.start == m'.start && (m.recvStart < m'.recvStart
        || (m.recvStart == m'.recvStart && m.lossStart <= m'.lossStart)))
  }

  /** `(\d+)\s+word` anchored at a, with greedy runs. */
  function NumberBeforeAt(s: string, a: nat, word: string): (r: Option<(nat, nat)>)
    ensures r.Some? ==> NumberBefore(s, a, r.value.0, r.value.1, word)
  {
    var e := RunEnd(s, a, Digit);
    var w := RunEnd(s, e, Space);
    RunEndStops(s, a, Digit);
    RunEndStops(s, e, Space);
    if a < e && e < w && LiteralAt(s, w, word) then Some((e, w)) else None
  }

  lemma NumberBeforeAtComplete(s: string, a: nat, e: nat, w: nat, word: string)
    requires NumberBefore(s, a, e, w, word)
    requires |word| > 0 && !IsSpace(word[0])
    ensures NumberBeforeAt(s, a, word) == Some((e, w))
  {
    RunEndUnique(s, a, e, Digit);
    RunBeforeLiteral(s, e, w, Space, word);
  }

  /** `([0-9]+)%\s+packet loss` anchored at a. */
  function LossAt(s: string, a: nat): (r: Option<(nat, nat)>)
    ensures r.Some? ==> LossPart(s, a, r.value.0, r.value.1)
  {
    var e := RunThen(s, a, Digit, "%");
    if e.None? then None
    else
      var w := RunThen(s, e.value + 1, Space, PacketLoss);
      if w.None? then None else Some((e.value, w.value))
  }

  lemma LossAtComplete(s: string, a: nat, e: nat, w: nat)
    requires LossPart(s, a, e, w)
    ensures LossAt(s, a) == Some((e, w))
  {
    RunThenComplete(s, a, e, Digit, "%");
    RunThenComplete(s, e + 1, w, Space, PacketLoss);
  }

  /** LossAt as the attempt a lazy gap repeats. */
  function LossAttempt(s: string): nat -> Option<(nat, nat)> { (j: nat) => LossAt(s, j) }

  /** Where the received count and the loss part of a Unix match lie. */
  datatype UnixTail = UnixTail(recvEnd: nat, receivedAt: nat, lossStart: nat, lossEnd: nat, lossWordAt: nat)

  /** `(\d+)\s+received.*?([0-9]+)%\s+packet loss` anchored at a: the lazy
      gap is tried shortest first. */
  function ReceivedTailAt(s: string, a: nat): (r: Option<UnixTail>)
    ensures r.Some? ==> NumberBefore(s, a, r.value.recvEnd, r.value.receivedAt, ReceivedWord)
                        && r.value.receivedAt + |ReceivedWord| <= r.value.lossStart
                        && LossPart(s, r.value.lossStart, r.value.lossEnd, r.value.lossWordAt)
  {
    var nb := NumberBeforeAt(s, a, ReceivedWord);
    if nb.None? then None
    else
      var loss := FirstSuccess(LossAttempt(s), nb.value.1 + |ReceivedWord|, |s|);
      if loss.None? then None
      else Some(UnixTail(nb.value.0, nb.value.1, loss.value.0, loss.value.1.0, loss.value.1.1))
  }

  function ReceivedTailAttempt(s: string): nat -> Option<UnixTail> { (k: nat) => ReceivedTailAt(s, k) }

  /** The whole Unix pattern anchored at i. */
  function UnixAt(s: string, i: nat): (r: Option<UnixSpan>)
    ensures r.Some? ==> r.value.start == i && IsUnixMatch(s, r.value)
  {
    var nb := NumberBeforeAt(s, i, Transmitted);
    if nb.None? then None
    else
      var tail := FirstSuccess(ReceivedTailAttempt(s), nb.value.1 + |Transmitted|, |s|);
      if tail.None? then None
      else
        var t := tail.value.1;
        Some(UnixSpan(i, nb.value.0, nb.value.1, tail.value.0, t.recvEnd, t.receivedAt, t.lossStart, t.lossEnd, t.lossWordAt))
  }

  function UnixAttempt(s: string): nat -> Option<UnixSpan> { (i: nat) => UnixAt(s, i) }

  /** re.search of the Unix counters pattern (net_troubleshooter.py line 35). */
  function SearchUnix(s: string): (r: Option<UnixSpan>)
    ensures r.Some? ==> IsUnixMatch(s, r.value)
  {
    var first := FirstSuccess(UnixAttempt(s), 0, |s|);
    if first.None? then None else Some(first.value.1)
  }

  /** Two Unix matches that agree on where a group starts agree on where the
      group and the white space after it end. */
  lemma UnixMatchForced(s: string, m: UnixSpan, m': UnixSpan)
    requires IsUnixMatch(s, m) && IsUnixMatch(s, m')
    ensures m.start == m'.start ==> m.sentEnd == m'.sentEnd && m.transmittedAt == m'.transmittedAt
    ensures m.recvStart == m'.recvStart ==> m.recvEnd == m'.recvEnd && m.receivedAt == m'.receivedAt
    ensures m.lossStart == m'.lossStart ==> m.lossEnd == m'.lossEnd && m.lossWordAt == m'.lossWordAt
  {
    NumberBeforeAtComplete(s, m.start, m.sentEnd, m.transmittedAt, Transmitted);
    NumberBeforeAtComplete(s, m'.start, m'.sentEnd, m'.transmittedAt, Transmitted);
    NumberBeforeAtComplete(s, m.recvStart, m.recvEnd, m.receivedAt, ReceivedWord);
    NumberBeforeAtComplete(s, m'.recvStart, m'.recvEnd, m'.receivedAt, ReceivedWord);
    LossAtComplete(s, m.lossStart, m.lossEnd, m.lossWordAt);
    LossAtComplete(s, m'.lossStart, m'.lossEnd, m'.lossWordAt);
  }

  /** Anchored at the start of a match's received count, the tail matcher
      succeeds, with a loss gap no longer than that match's. */
  lemma ReceivedTailAtComplete(s: string, m': UnixSpan)
    requires IsUnixMatch(s, m')
    ensures ReceivedTailAt(s, m'.recvStart).Some?
    ensures var t := ReceivedTailAt(s, m'.recvStart).value;
            t.recvEnd == m'.recvEnd && t.receivedAt == m'.receivedAt && t.lossStart <= m'.lossStart
  {
    LossAtComplete(s, m'.lossStart, m'.lossEnd, m'.lossWordAt);
    FirstSuccessNoLater(LossAttempt(s), m'.receivedAt + |ReceivedWord|, |s|, m'.lossStart);
    NumberBeforeAtComplete(s, m'.recvStart, m'.recvEnd, m'.receivedAt, ReceivedWord);
  }

  /** Anchored at a match's start, the Unix matcher succeeds with gaps that
      come no later than that match's. */
  lemma UnixAtComplete(s: string, m': UnixSpan)
    requires IsUnixMatch(s, m')
    ensures UnixAt(s, m'.start).Some? && UnixNoLater(UnixAt(s, m'.start).value, m')
  {
    NumberBeforeAtComplete(s, m'.start, m'.sentEnd, m'.transmittedAt, Transmitted);
    ReceivedTailAtComplete(s, m');
    UnixAtFromParts(s, m');
  }

  /** The Unix matcher at a start where the sent count is found, given a
      tail that succeeds at a match's received count. */
  lemma UnixAtFromParts(s: string, m': UnixSpan)
    requires NumberBeforeAt(s, m'.start, Transmitted) == Some((m'.sentEnd, m'.transmittedAt))
    requires m'.transmittedAt + |Transmitted| <= m'.recvStart <= |s|
    requires ReceivedTailAt(s, m'.recvStart).Some? && ReceivedTailAt(s, m'.recvStart).value.lossStart <= m'.lossStart
    ensures UnixAt(s, m'.start).Some? && UnixNoLater(UnixAt(s, m'.start).value, m')
  {
    var lo := m'.transmittedAt + |Transmitted|;
    assert ReceivedTailAttempt(s)(m'.recvStart) == ReceivedTailAt(s, m'.recvStart);
    FirstSuccessNoLater(ReceivedTailAttempt(s), lo, |s|, m'.recvStart);
  }

  /** SearchUnix finds a match whenever there is one, and it is the one
      backtracking reaches first. */
  lemma UnixSearchFirst(s: string, m': UnixSpan)
    requires IsUnixMatch(s, m')
    ensures SearchUnix(s).Some? && UnixNoLater(SearchUnix(s).value, m')
  {
    UnixAtComplete(s, m');
    assert UnixAttempt(s)(m'.start) == UnixAt(s, m'.start);
    FirstSuccessNoLater(UnixAttempt(s), 0, |s|, m'.start);
    var first := FirstSuccess(UnixAttempt(s), 0, |s|).value;
    assert UnixAttempt(s)(first.0) == UnixAt(s, first.0);
    assert SearchUnix(s) == Some(first.1);
  }

  /** The Unix pattern is found exactly when the text holds a match. */
  lemma UnixFoundIff(s: string)
    ensures SearchUnix(s).Some? <==> exists m :: IsUnixMatch(s, m)
  {
    if m :| IsUnixMatch(s, m) {
      UnixSearchFirst(s, m);
    }
  }

  /** The sent count is a whole number: the match never starts inside a run
      of digits. */
  lemma UnixSentIsWholeNumber(s: string)
    requires SearchUnix(s).Some?
    ensures var m := SearchUnix(s).value; m.start == 0 || !IsDigit(s[m.start - 1])
  {
    var m := SearchUnix(s).value;
    if m.start > 0 && IsDigit(s[m.start - 1]) {
      var m' := m.(start := m.start - 1);
      RunExtendLeft(s, m.start, m.sentEnd, Digit);
      assert IsUnixMatch(s, m');
      UnixSearchFirst(s, m');
      assert false;
    }
  }

  /** A Unix match whose loss count has a digit in front of it is still a
      match when the count starts one earlier: that digit cannot belong to
      the word "received", so it lies in the lazy gap. */
  lemma UnixLossExtendLeft(s: string, m: UnixSpan)
    requires IsUnixMatch(s, m) && 0 < m.lossStart && IsDigit(s[m.lossStart - 1])
    ensures IsUnixMatch(s, m.(lossStart := m.lossStart - 1))
  {
    var last := m.receivedAt + |ReceivedWord| - 1;
    assert s[last] == s[m.receivedAt..m.receivedAt + |ReceivedWord|][|ReceivedWord| - 1];
    assert m.lossStart - 1 != last;
    RunExtendLeft(s, m.lossStart, m.lossEnd, Digit);
  }

  /** The loss capture is the whole run of digits in front of the '%': the
      one after the last non-digit. On "25.5% packet loss" it is "5". */
  lemma UnixLossIsDigitsBeforePercent(s: string)
    requires SearchUnix(s).Some?
    ensures var m := SearchUnix(s).value; !IsDigit(s[m.lossStart - 1])
  {
    var m := SearchUnix(s).value;
    if IsDigit(s[m.lossStart - 1]) {
      UnixLossExtendLeft(s, m);
      UnixSearchFirst(s, m.(lossStart := m.lossStart - 1));
      assert false;
    }
  }

  // -------------------------------------------------------------------------
  // Windows counters: Sent = (\d+), Received = (\d+), Lost = (\d+)
  // -------------------------------------------------------------------------

  const SentEq: string := "Sent = "
  const ReceivedEq: string := ", Received = "
  const LostEq: string := ", Lost = "

  datatype WindowsSpan = WindowsSpan(start: nat, sentEnd: nat, recvEnd: nat, lostEnd: nat)

  predicate IsWindowsMatch(s: string, m: WindowsSpan) {
    LiteralAt(s, m.start, SentEq)
    && IsRun(s, m.start + |SentEq|, m.sentEnd, Digit)
    && LiteralAt(s, m.sentEnd, ReceivedEq)
    && IsRun(s, m.sentEnd + |ReceivedEq|, m.recvEnd, Digit)
    && LiteralAt(s, m.recvEnd, LostEq)
    && IsRun(s, m.recvEnd + |LostEq|, m.lostEnd, Digit)
  }

  /** The Windows pattern anchored at i; its last `\d+` ends the pattern, so
      being greedy it takes every digit there is. */
  function WindowsAt(s: string, i: nat): (r: Option<WindowsSpan>)
    ensures r.Some? ==> r.value.start == i && IsWindowsMatch(s, r.value)
  {
    if !LiteralAt(s, i, SentEq) then None
    else
      var se := RunThen(s, i + |SentEq|, Digit, ReceivedEq);
      if se.None? then None
      else
        var re := RunThen(s, se.value + |ReceivedEq|, Digit, LostEq);
        if re.None? then None
        else
          var le := RunEnd(s, re.value + |LostEq|, Digit);
          RunEndStops(s, re.value + |LostEq|, Digit);
          if le == re.value + |LostEq| then None else Some(WindowsSpan(i, se.value, re.value, le))
  }

  function WindowsAttempt(s: string): nat -> Option<WindowsSpan> { (i: nat) => WindowsAt(s, i) }

  /** re.search of the Windows counters pattern (net_troubleshooter.py line 40). */
  function SearchWindows(s: string): (r: Option<WindowsSpan>)
    ensures r.Some? ==> IsWindowsMatch(s, r.value)
  {
    var first := FirstSuccess(WindowsAttempt(s), 0, |s|);
    if first.None? then None else Some(first.value.1)
  }

  /** Anchored at a match's start, the Windows matcher succeeds with the
      same counts and the longest lost count. */
  lemma WindowsAtComplete(s: string, m': WindowsSpan)
    requires IsWindowsMatch(s, m')
    ensures WindowsAt(s, m'.start) == Some(m'.(lostEnd := RunEnd(s, m'.recvEnd + |LostEq|, Digit)))
  {
    RunThenComplete(s, m'.start + |SentEq|, m'.sentEnd, Digit, ReceivedEq);
    RunThenComplete(s, m'.sentEnd + |ReceivedEq|, m'.recvEnd, Digit, LostEq);
    RunWithinRunEnd(s, m'.recvEnd + |LostEq|, m'.lostEnd, Digit);
    WindowsAtFromParts(s, m');
  }

  /** WindowsAt puts together the two counts and the longest lost count. */
  lemma WindowsAtFromParts(s: string, m': WindowsSpan)
    requires LiteralAt(s, m'.start, SentEq)
    requires RunThen(s, m'.start + |SentEq|, Digit, ReceivedEq) == Some(m'.sentEnd)
    requires RunThen(s, m'.sentEnd + |ReceivedEq|, Digit, LostEq) == Some(m'.recvEnd)
    requires m'.recvEnd + |LostEq| < RunEnd(s, m'.recvEnd + |LostEq|, Digit)
    ensures WindowsAt(s, m'.start) == Some(m'.(lostEnd := RunEnd(s, m'.recvEnd + |LostEq|, Digit)))
  {
  }

  /** SearchWindows finds a match whenever there is one: the leftmost, and
      at that start the one with the longest lost count. */
  lemma WindowsSearchFirst(s: string, m': WindowsSpan)
    requires IsWindowsMatch(s, m')
    ensures SearchWindows(s).Some?
    ensures var m := SearchWindows(s).value;
            m.start < m'.start
            || (m.start == m'.start && m.sentEnd == m'.sentEnd && m.recvEnd == m'.recvEnd && m.lostEnd >= m'.lostEnd)
  {
    WindowsAtComplete(s, m');
    RunWithinRunEnd(s, m'.recvEnd + |LostEq|, m'.lostEnd, Digit);
    FirstSuccessNoLater(WindowsAttempt(s), 0, |s|, m'.start);
  }

  /** The Windows pattern is found exactly when the text holds a match. */
  lemma WindowsFoundIff(s: string)
    ensures SearchWindows(s).Some? <==> exists m :: IsWindowsMatch(s, m)
  {
    if m :| IsWindowsMatch(s, m) {
      WindowsSearchFirst(s, m);
    }
  }

  // -------------------------------------------------------------------------
  // Unix round-trip line: rtt [\w/]+ = [\d\.]+/([\d\.]+)/[\d\.]+/[\d\.]+ ms
  // -------------------------------------------------------------------------

  const RttWord: string := "rtt "
  const Equals: string := " = "
  const Slash: string := "/"
  const MsSuffix: string := " ms"

  datatype RttSpan = RttSpan(start: nat, nameEnd: nat, minEnd: nat, avgEnd: nat, maxEnd: nat, mdevEnd: nat)

  predicate IsRttMatch(s: string, m: RttSpan) {
    LiteralAt(s, m.start, RttWord)
    && IsRun(s, m.start + |RttWord|, m.nameEnd, WordOrSlash)
    && LiteralAt(s, m.nameEnd, Equals)
    && IsRun(s, m.nameEnd + |Equals|, m.minEnd, DigitOrDot)
    && LiteralAt(s, m.minEnd, Slash)
    && IsRun(s, m.minEnd + 1, m.avgEnd, DigitOrDot)
    && LiteralAt(s, m.avgEnd, Slash)
    && IsRun(s, m.avgEnd + 1, m.maxEnd, DigitOrDot)
    && LiteralAt(s, m.maxEnd, Slash)
    && IsRun(s, m.maxEnd + 1, m.mdevEnd, DigitOrDot)
    && LiteralAt(s, m.mdevEnd, MsSuffix)
  }

  /** `[\d\.]+/([\d\.]+)/[\d\.]+/[\d\.]+ ms` anchored at a: where the four
      numbers end. */
  function RttFieldsAt(s: string, a: nat): (r: Option<(nat, nat, nat, nat)>)
    ensures r.Some? ==> IsRun(s, a, r.value.0, DigitOrDot) && LiteralAt(s, r.value.0, Slash)
                        && IsRun(s, r.value.0 + 1, r.value.1, DigitOrDot) && LiteralAt(s, r.value.1, Slash)
                        && IsRun(s, r.value.1 + 1, r.value.2, DigitOrDot) && LiteralAt(s, r.value.2, Slash)
                        && IsRun(s, r.value.2 + 1, r.value.3, DigitOrDot) && LiteralAt(s, r.value.3, MsSuffix)
  {
    var e1 := RunThen(s, a, DigitOrDot, Slash);
    if e1.None? then None else
    var e2 := RunThen(s, e1.value + 1, DigitOrDot, Slash);
    if e2.None? then None else
    var e3 := RunThen(s, e2.value + 1, DigitOrDot, Slash);
    if e3.None? then None else
    var e4 := RunThen(s, e3.value + 1, DigitOrDot, MsSuffix);
    if e4.None? then None else
    Some((e1.value, e2.value, e3.value, e4.value))
  }

  /** The rtt pattern anchored at i. */
  function RttAt(s: string, i: nat): (r: Option<RttSpan>)
    ensures r.Some? ==> r.value.start == i && IsRttMatch(s, r.value)
  {
    if !LiteralAt(s, i, RttWord) then None
    else
      var ne := RunThen(s, i + |RttWord|, WordOrSlash, Equals);
      if ne.None? then None
      else
        var fields := RttFieldsAt(s, ne.value + |Equals|);
        if fields.None? then None
        else Some(RttSpan(i, ne.value, fields.value.0, fields.value.1, fields.value.2, fields.value.3))
  }

  function RttAttempt(s: string): nat -> Option<RttSpan> { (i: nat) => RttAt(s, i) }

  /** re.search of the rtt pattern (net_troubleshooter.py line 47). */
  function SearchRtt(s: string): (r: Option<RttSpan>)
    ensures r.Some? ==> IsRttMatch(s, r.value)
  {
    var first := FirstSuccess(RttAttempt(s), 0, |s|);
    if first.None? then None else Some(first.value.1)
  }

  /** Anchored at a match's start, the rtt matcher returns that match. */
  lemma RttAtComplete(s: string, m': RttSpan)
    requires IsRttMatch(s, m')
    ensures RttAt(s, m'.start) == Some(m')
  {
    RunThenComplete(s, m'.start + |RttWord|, m'.nameEnd, WordOrSlash, Equals);
    RttFieldsAtComplete(s, m');
    RttAtFromParts(s, m');
  }

  /** RttAt puts together the name run and the four numbers. */
  lemma RttAtFromParts(s: string, m': RttSpan)
    requires LiteralAt(s, m'.start, RttWord)
    requires RunThen(s, m'.start + |RttWord|, WordOrSlash, Equals) == Some(m'.nameEnd)
    requires RttFieldsAt(s, m'.nameEnd + |Equals|) == Some((m'.minEnd, m'.avgEnd, m'.maxEnd, m'.mdevEnd))
    ensures RttAt(s, m'.start) == Some(m')
  {
  }

  /** The four numbers of a match are what RttFieldsAt finds after its " = ". */
  lemma RttFieldsAtComplete(s: string, m': RttSpan)
    requires IsRttMatch(s, m')
    ensures RttFieldsAt(s, m'.nameEnd + |Equals|) == Some((m'.minEnd, m'.avgEnd, m'.maxEnd, m'.mdevEnd))
  {
    var a := m'.nameEnd + |Equals|;
    RunThenComplete(s, a, m'.minEnd, DigitOrDot, Slash);
    RunThenComplete(s, m'.minEnd + 1, m'.avgEnd, DigitOrDot, Slash);
    RunThenComplete(s, m'.avgEnd + 1, m'.maxEnd, DigitOrDot, Slash);
    RunThenComplete(s, m'.maxEnd + 1, m'.mdevEnd, DigitOrDot, MsSuffix);
    RttFieldsFromRuns(s, a, m'.minEnd, m'.avgEnd, m'.maxEnd, m'.mdevEnd);
  }

  /** RttFieldsAt chains its four runs. */
  lemma RttFieldsFromRuns(s: string, a: nat, e1: nat, e2: nat, e3: nat, e4: nat)
    requires RunThen(s, a, DigitOrDot, Slash) == Some(e1) && RunThen(s, e1 + 1, DigitOrDot, Slash) == Some(e2)
    requires RunThen(s, e2 + 1, DigitOrDot, Slash) == Some(e3) && RunThen(s, e3 + 1, DigitOrDot, MsSuffix) == Some(e4)
    ensures RttFieldsAt(s, a) == Some((e1, e2, e3, e4))
  {
  }

  /** SearchRtt finds a match whenever there is one: the leftmost, and a
      match is fixed by its start. */
  lemma RttSearchFirst(s: string, m': RttSpan)
    requires IsRttMatch(s, m')
    ensures SearchRtt(s).Some?
    ensures SearchRtt(s).value.start < m'.start || SearchRtt(s).value == m'
  {
    RttAtComplete(s, m');
    assert RttAttempt(s)(m'.start) == Some(m');
    FirstSuccessNoLater(RttAttempt(s), 0, |s|, m'.start);
    var first := FirstSuccess(RttAttempt(s), 0, |s|).value;
    assert RttAttempt(s)(first.0) == RttAt(s, first.0);
  }

  /** The rtt pattern is found exactly when the text holds a match. */
  lemma RttFoundIff(s: string)
    ensures SearchRtt(s).Some? <==> exists m :: IsRttMatch(s, m)
  {
    if m :| IsRttMatch(s, m) {
      RttSearchFirst(s, m);
    }
  }

  // -------------------------------------------------------------------------
  // Windows average: Average = (\d+)ms
  // -------------------------------------------------------------------------

  const AverageEq: string := "Average = "
  const Ms: string := "ms"

  datatype AverageSpan = AverageSpan(start: nat, digitsEnd: nat)

  predicate IsAverageMatch(s: string, m: AverageSpan) {
    LiteralAt(s, m.start, AverageEq)
    && IsRun(s, m.start + |AverageEq|, m.digitsEnd, Digit)
    && LiteralAt(s, m.digitsEnd, Ms)
  }

  function AverageAt(s: string, i: nat): (r: Option<AverageSpan>)
    ensures r.Some? ==> r.value.start == i && IsAverageMatch(s, r.value)
  {
    if !LiteralAt(s, i, AverageEq) then None
    else
      var e := RunThen(s, i + |AverageEq|, Digit, Ms);
      if e.None? then None else Some(AverageSpan(i, e.value))
  }

  function AverageAttempt(s: string): nat -> Option<AverageSpan> { (i: nat) => AverageAt(s, i) }

  /** re.search of the Windows average pattern (net_troubleshooter.py line 54). */
  function SearchAverage(s: string): (r: Option<AverageSpan>)
    ensures r.Some? ==> IsAverageMatch(s, r.value)
  {
    var first := FirstSuccess(AverageAttempt(s), 0, |s|);
    if first.None? then None else Some(first.value.1)
  }

  lemma AverageSearchFirst(s: string, m': AverageSpan)
    requires IsAverageMatch(s, m')
    ensures SearchAverage(s).Some?
    ensures SearchAverage(s).value.start < m'.start || SearchAverage(s).value == m'
  {
    RunThenComplete(s, m'.start + |AverageEq|, m'.digitsEnd, Digit, Ms);
    var anchored := AverageAttempt(s);
    assert anchored(m'.start) == Some(m');
    FirstSuccessNoLater(anchored, 0, |s|, m'.start);
  }

  /** The Windows average pattern is found exactly when the text holds a
      match. */
  lemma AverageFoundIff(s: string)
    ensures SearchAverage(s).Some? <==> exists m :: IsAverageMatch(s, m)
  {
    if m :| IsAverageMatch(s, m) {
      AverageSearchFirst(s, m);
    }
  }
}

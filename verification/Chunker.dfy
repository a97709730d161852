/** Splitting text into overlapping chunks. A text is a sequence of UTF-16 code units, held as plain numbers. */
module Chunker {
  import opened Common

  type Unit = int
  type Text = seq<Unit>

  const NEWLINE: Unit := 10
  const SPACE: Unit := 32
  const PERIOD: Unit := 46

  const DEFAULT_MAX_CHUNK_SIZE: nat := 1000
  const DEFAULT_OVERLAP: nat := 150

  // ---- Trimming ------------------------------------------------------------------------------------------

  /** The white space and line terminators that trim removes. */
  predicate IsSpace(u: Unit) {
    9 <= u <= 13 || u == 32 || u == 160 || u == 0x1680 || 0x2000 <= u <= 0x200A || u == 0x2028 || u == 0x2029
    || u == 0x202F || u == 0x205F || u == 0x3000 || u == 0xFEFF
  }

  /** White space by its code points: six of ASCII, then the space separators, the line separators and the mark. */
  lemma SpacesAre(u: Unit)
    ensures IsSpace(u) <==>
            u in {9, 10, 11, 12, 13, 32, 160, 5760, 8192, 8193, 8194, 8195, 8196, 8197, 8198, 8199, 8200, 8201, 8202,
                  8232, 8233, 8239, 8287, 12288, 65279}
  {
  }

  /** The first index from i on without white space, or the length. */
  function FirstKept(t: Text, i: nat): (n: nat)
    requires i <= |t|
    ensures i <= n <= |t|
    decreases |t| - i
  {
    if i < |t| && IsSpace(t[i]) then FirstKept(t, i + 1) else i
  }

  /** The index after the last one before n without white space, or 0. */
  function AfterKept(t: Text, n: nat): (m: nat)
    requires n <= |t|
    ensures m <= n
  {
    if n > 0 && IsSpace(t[n - 1]) then AfterKept(t, n - 1) else n
  }

  /** The text without leading and trailing white space. */
  function Trim(t: Text): (r: Text)
    ensures |r| <= |t|
  {
    var first, last := FirstKept(t, 0), AfterKept(t, |t|);
    if first < last then t[first..last] else []
  }

  lemma {:induction false} LeadingIsSpace(t: Text, i: nat)
    requires i <= |t|
    ensures forall k :: i <= k < FirstKept(t, i) ==> IsSpace(t[k])
    ensures FirstKept(t, i) < |t| ==> !IsSpace(t[FirstKept(t, i)])
    decreases |t| - i
  {
    if i < |t| && IsSpace(t[i]) {
      LeadingIsSpace(t, i + 1);
    }
  }

  lemma {:induction false} TrailingIsSpace(t: Text, n: nat)
    requires n <= |t|
    ensures forall k :: AfterKept(t, n) <= k < n ==> IsSpace(t[k])
    ensures AfterKept(t, n) > 0 ==> !IsSpace(t[AfterKept(t, n) - 1])
  {
    if n > 0 && IsSpace(t[n - 1]) {
      TrailingIsSpace(t, n - 1);
    }
  }

  /** What is left is empty, or begins and ends with something other than white space. */
  lemma TrimmedEnds(t: Text)
    ensures Trim(t) != [] ==> !IsSpace(Trim(t)[0]) && !IsSpace(Trim(t)[|Trim(t)| - 1])
  {
    LeadingIsSpace(t, 0);
    TrailingIsSpace(t, |t|);
  }

  // ---- Where a window ends ---------------------------------------------------------------------------------

  /** The last index before n of a unit, or -1. */
  function LastIndexOf(s: Text, c: Unit, n: nat): (i: int)
    requires n <= |s|
    ensures -1 <= i < n
  {
    if n == 0 then -1 else if s[n - 1] == c then n - 1 else LastIndexOf(s, c, n - 1)
  }

  lemma {:induction false} LastIndexOfIsLast(s: Text, c: Unit, n: nat)
    requires n <= |s|
    ensures LastIndexOf(s, c, n) >= 0 ==> s[LastIndexOf(s, c, n)] == c
    ensures forall j :: LastIndexOf(s, c, n) < j < n ==> s[j] != c
  {
    if n > 0 && s[n - 1] != c {
      LastIndexOfIsLast(s, c, n - 1);
    }
  }

  predicate PeriodSpaceAt(s: Text, i: int) {
    0 <= i && i + 1 < |s| && s[i] == PERIOD && s[i + 1] == SPACE
  }

  /** The last index before n where a period and a space stand, or -1. */
  function LastPeriodSpace(s: Text, n: nat): (i: int)
    ensures -1 <= i < n
    ensures i == -1 || PeriodSpaceAt(s, i)
  {
    if n == 0 then -1 else if PeriodSpaceAt(s, n - 1) then n - 1 else LastPeriodSpace(s, n - 1)
  }

  lemma {:induction false} LastPeriodSpaceIsLast(s: Text, n: nat)
    ensures forall j :: LastPeriodSpace(s, n) < j < n ==> !PeriodSpaceAt(s, j)
  {
    if n > 0 && !PeriodSpaceAt(s, n - 1) {
      LastPeriodSpaceIsLast(s, n - 1);
    }
  }

  /** The index that a bound of slice stands for: a negative one counts from the end. */
  function SliceIndex(t: Text, i: int): (k: nat)
    ensures k <= |t|
  {
    if i > |t| then |t| else if i >= 0 then i else if |t| + i > 0 then |t| + i else 0
  }

  /** slice(from, to) */
  function Slice(t: Text, from: int, to: int): Text {
    if SliceIndex(t, from) <= SliceIndex(t, to) then t[SliceIndex(t, from)..SliceIndex(t, to)] else []
  }

  /** The last newline of the lookback, else the space after its last period, else its last space. */
  function SplitOffset(lookback: Text): (i: int)
    ensures -1 <= i < |lookback|
  {
    if LastIndexOf(lookback, NEWLINE, |lookback|) != -1 then LastIndexOf(lookback, NEWLINE, |lookback|)
    else if LastPeriodSpace(lookback, |lookback|) != -1 then LastPeriodSpace(lookback, |lookback|) + 1
    else LastIndexOf(lookback, SPACE, |lookback|)
  }

  lemma SplitsAtBreak(lookback: Text)
    ensures var i := SplitOffset(lookback);
            if i >= 0 then lookback[i] == NEWLINE || lookback[i] == SPACE
            else NEWLINE !in lookback && SPACE !in lookback
  {
    LastIndexOfIsLast(lookback, NEWLINE, |lookback|);
    LastPeriodSpaceIsLast(lookback, |lookback|);
    LastIndexOfIsLast(lookback, SPACE, |lookback|);
  }

  /** The end of the window that begins at start, when the text goes on past its largest size. */
  function SplitEnd(t: Text, start: int, maxChunkSize: nat): int {
    var offset := SplitOffset(Slice(t, start + maxChunkSize - 100, start + maxChunkSize));
    if offset != -1 then start + maxChunkSize - 100 + offset else start + maxChunkSize
  }

  lemma SplitEndBounds(t: Text, start: nat, maxChunkSize: nat)
    requires start + maxChunkSize < |t| && maxChunkSize >= 100
    ensures start + maxChunkSize - 100 <= SplitEnd(t, start, maxChunkSize) <= start + maxChunkSize
  {
  }

  /** A window never ends inside a word, unless the hundred units before its largest end hold no newline or space. */
  lemma WordsStayWhole(t: Text, start: nat, maxChunkSize: nat)
    requires start + maxChunkSize < |t| && maxChunkSize >= 100
    ensures var e := SplitEnd(t, start, maxChunkSize);
            || t[e] == NEWLINE || t[e] == SPACE
            || (e == start + maxChunkSize && forall i :: e - 100 <= i < e ==> t[i] != NEWLINE && t[i] != SPACE)
  {
    var lookback := t[start + maxChunkSize - 100..start + maxChunkSize];
    var e := SplitEnd(t, start, maxChunkSize);
    SplitsAtBreak(lookback);
    if SplitOffset(lookback) == -1 {
      forall i | e - 100 <= i < e ensures t[i] != NEWLINE && t[i] != SPACE {
        assert t[i] == lookback[i - (e - 100)];
      }
    }
  }

  /** The last position of a window's hundred units that stands at a unit, or at a unit after another. */
  ghost predicate LastAt(t: Text, from: nat, to: nat, e: int, previous: Option<Unit>, unit: Unit)
    requires to <= |t|
  {
    && StandsAt(t, from, to, e, previous, unit)
    && forall j :: e < j < to ==> !StandsAt(t, from, to, j, previous, unit)
  }

  predicate StandsAt(t: Text, from: nat, to: nat, j: int, previous: Option<Unit>, unit: Unit)
    requires to <= |t|
  {
    from <= j < to && t[j] == unit && (previous.Some? ==> from < j && t[j - 1] == previous.value)
  }

  ghost predicate Nowhere(t: Text, from: nat, to: nat, previous: Option<Unit>, unit: Unit)
    requires to <= |t|
  {
    forall j :: !StandsAt(t, from, to, j, previous, unit)
  }

  /**
   Where a window ends: at the last newline of the hundred units before its largest end, else at the last space that
   follows a period there, else at the last space there, else at its largest end. Newline is 10, space 32, period 46.
   */
  lemma SplitEndIs(t: Text, start: nat, maxChunkSize: nat)
    requires start + maxChunkSize < |t| && maxChunkSize >= 100
    ensures var e, to := SplitEnd(t, start, maxChunkSize), start + maxChunkSize;
            var from := to - 100;
            if !Nowhere(t, from, to, None, 10) then LastAt(t, from, to, e, None, 10)
            else if !Nowhere(t, from, to, Some(46), 32) then LastAt(t, from, to, e, Some(46), 32)
            else if !Nowhere(t, from, to, None, 32) then LastAt(t, from, to, e, None, 32)
            else e == to
  {
    var from, to := start + maxChunkSize - 100, start + maxChunkSize;
    var lookback := t[from..to];
    assert Slice(t, from, to) == lookback;
    LastUnitIs(t, from, to, 10);
    LastUnitIs(t, from, to, 32);
    LastPeriodSpaceIs(t, from, to);
  }

  lemma LastUnitIs(t: Text, from: nat, to: nat, unit: Unit)
    requires from <= to <= |t|
    ensures var i := LastIndexOf(t[from..to], unit, to - from);
            if i == -1 then Nowhere(t, from, to, None, unit) else LastAt(t, from, to, from + i, None, unit)
  {
    var lookback := t[from..to];
    LastIndexOfIsLast(lookback, unit, |lookback|);
    forall j | from <= j < to ensures t[j] == lookback[j - from] {
    }
  }

  lemma LastPeriodSpaceIs(t: Text, from: nat, to: nat)
    requires from <= to <= |t|
    ensures var i := LastPeriodSpace(t[from..to], to - from);
            if i == -1 then Nowhere(t, from, to, Some(46), 32) else LastAt(t, from, to, from + i + 1, Some(46), 32)
  {
    var lookback := t[from..to];
    LastPeriodSpaceIsLast(lookback, |lookback|);
    forall j | StandsAt(t, from, to, j, Some(46), 32) ensures PeriodSpaceAt(lookback, j - from - 1) {
      assert t[j] == lookback[j - from] && t[j - 1] == lookback[j - from - 1];
    }
  }

  // ---- Exactly when the loop ends -----------------------------------------------------------------------------

  /** The start index of the next round, or None when this round is the last. It may be negative. */
  function NextStart(t: Text, start: int, maxChunkSize: nat, overlap: nat): Option<int> {
    if start >= |t| || start + maxChunkSize >= |t| then None
    else
      var next := SplitEnd(t, start, maxChunkSize) - overlap;
      if next >= |t| - overlap then None else Some(next)
  }

  type Stepper = int -> Option<int>

  function Stepping(t: Text, maxChunkSize: nat, overlap: nat): Stepper {
    (start: int) => NextStart(t, start, maxChunkSize, overlap)
  }

  /** The start index of round n, counted from 0, if the loop gets that far. */
  function Round(next: Stepper, n: nat): Option<int> {
    if n == 0 then Some(0)
    else
      match Round(next, n - 1)
      case None => None
      case Some(start) => next(start)
  }

  ghost predicate LoopEnds(t: Text, maxChunkSize: nat, overlap: nat) {
    exists n: nat :: Round(Stepping(t, maxChunkSize, overlap), n).None?
  }

  /** What makes a loop end: the start index rises, and stays below a bound. */
  ghost predicate Rises(next: Stepper, bound: nat) {
    forall start: int :: start >= 0 && next(start).Some? ==> start < next(start).value < bound
  }

  lemma {:induction false} RisingEnds(next: Stepper, bound: nat, n: nat)
    requires Rises(next, bound)
    ensures Round(next, n).Some? ==> Round(next, n).value >= n
    ensures n > 0 && Round(next, n).Some? ==> Round(next, n).value < bound
  {
    if n > 0 {
      RisingEnds(next, bound, n - 1);
    }
  }

  /** Once a round begins where the round before began, the loop goes on for ever. */
  lemma {:induction false} StaysThere(next: Stepper, m: nat, start: int, n: nat)
    requires Round(next, m) == Some(start) && next(start) == Some(start)
    ensures Round(next, n).Some? && (n >= m ==> Round(next, n) == Some(start))
  {
    if n > m {
      StaysThere(next, m, start, n - 1);
    } else {
      EarlierRounds(next, n, m);
    }
  }

  lemma {:induction false} EarlierRounds(next: Stepper, n: nat, m: nat)
    requires n <= m && Round(next, m).Some?
    ensures Round(next, n).Some?
  {
    if n < m {
      EarlierRounds(next, n, m - 1);
    }
  }

  lemma SteppingRises(t: Text, maxChunkSize: nat, overlap: nat)
    requires maxChunkSize > overlap + 100
    ensures Rises(Stepping(t, maxChunkSize, overlap), |t|)
  {
    forall start: int | start >= 0 && NextStart(t, start, maxChunkSize, overlap).Some?
      ensures start < NextStart(t, start, maxChunkSize, overlap).value < |t|
    {
      SplitEndBounds(t, start, maxChunkSize);
    }
  }

  const LETTER: Unit := 120

  /** A text of letters with one newline, or none when the position lies outside. */
  function LettersWithBreak(length: nat, position: int): (t: Text)
    ensures |t| == length && forall i :: 0 <= i < length ==> t[i] == if i == position then NEWLINE else LETTER
  {
    seq(length, i requires 0 <= i < length => if i == position then NEWLINE else LETTER)
  }

  lemma LettersAreTrimmed(length: nat, position: int)
    requires length > 0 && position != 0 && position != length - 1
    ensures Trim(LettersWithBreak(length, position)) == LettersWithBreak(length, position)
  {
    var t := LettersWithBreak(length, position);
    assert FirstKept(t, 0) == 0 && AfterKept(t, |t|) == |t|;
  }

  lemma NoBreakNoSplit(lookback: Text)
    requires forall i :: 0 <= i < |lookback| ==> lookback[i] == LETTER
    ensures SplitOffset(lookback) == -1
  {
    SplitsAtBreak(lookback);
  }

  /** A window whose lookback misses the newline has its largest size. */
  lemma FullWindow(length: nat, position: int, start: int, maxChunkSize: nat)
    requires position < 0 || (0 <= start && start + maxChunkSize <= position <= length - 100)
    requires start + maxChunkSize < length
    ensures SplitEnd(LettersWithBreak(length, position), start, maxChunkSize) == start + maxChunkSize
  {
    var t := LettersWithBreak(length, position);
    var lookback := Slice(t, start + maxChunkSize - 100, start + maxChunkSize);
    forall i | 0 <= i < |lookback| ensures lookback[i] == LETTER {
      assert lookback[i] == t[SliceIndex(t, start + maxChunkSize - 100) + i];
    }
    NoBreakNoSplit(lookback);
  }

  /** A window whose lookback holds the newline ends there. */
  lemma WindowAtBreak(length: nat, position: nat, start: nat, maxChunkSize: nat)
    requires start + maxChunkSize < length && 0 <= start + maxChunkSize - 100 <= position < start + maxChunkSize
    ensures SplitEnd(LettersWithBreak(length, position), start, maxChunkSize) == position
  {
    var t := LettersWithBreak(length, position);
    var lookback := Slice(t, start + maxChunkSize - 100, start + maxChunkSize);
    assert lookback == t[start + maxChunkSize - 100..start + maxChunkSize];
    var i := position - (start + maxChunkSize - 100);
    assert lookback[i] == NEWLINE;
    assert forall j :: 0 <= j < |lookback| && j != i ==> lookback[j] == t[start + maxChunkSize - 100 + j] == LETTER;
    LastIndexOfIsLast(lookback, NEWLINE, |lookback|);
  }

  /** A round on such a text, where the window has its largest size. */
  lemma FullRound(length: nat, position: int, start: int, next: int, maxChunkSize: nat, overlap: nat)
    requires position < 0 || (0 <= start && start + maxChunkSize <= position <= length - 100)
    requires next == start + maxChunkSize - overlap && start < length && start + maxChunkSize < length
             && next < length - overlap
    ensures Stepping(LettersWithBreak(length, position), maxChunkSize, overlap)(start) == Some(next)
  {
    FullWindow(length, position, start, maxChunkSize);
  }

  ghost predicate StaysLow(next: Stepper) {
    forall start: int :: start <= 0 ==> next(start).Some? && next(start).value <= 0
  }

  lemma {:induction false} LowForEver(next: Stepper, n: nat)
    requires StaysLow(next)
    ensures Round(next, n).Some? && Round(next, n).value <= 0
  {
    if n > 0 {
      LowForEver(next, n - 1);
    }
  }

  /** Without any break and with an overlap of at least a window, the start index never rises above 0. */
  lemma NeverRises(maxChunkSize: nat, overlap: nat)
    requires maxChunkSize <= overlap
    ensures StaysLow(Stepping(LettersWithBreak(overlap + 1, -1), maxChunkSize, overlap))
  {
    var next := Stepping(LettersWithBreak(overlap + 1, -1), maxChunkSize, overlap);
    forall start: int | start <= 0 ensures next(start).Some? && next(start).value <= 0 {
      FullRound(overlap + 1, -1, start, start + maxChunkSize - overlap, maxChunkSize, overlap);
    }
  }

  /** n steps of d */
  function Multiple(d: nat, n: nat): (m: nat)
    ensures d > 0 ==> m >= n
  {
    if n == 0 then 0 else Multiple(d, n - 1) + d
  }

  lemma {:induction false} MultiplesGrow(d: nat, m: nat, n: nat)
    requires m <= n
    ensures Multiple(d, m) <= Multiple(d, n)
  {
    if m < n {
      MultiplesGrow(d, m, n - 1);
    }
  }

  ghost predicate StepsBy(next: Stepper, d: nat, n: nat) {
    forall k: nat :: k < n ==> next(Multiple(d, k)) == Some(Multiple(d, k + 1))
  }

  lemma {:induction false} RoundIsMultiple(next: Stepper, d: nat, n: nat)
    requires StepsBy(next, d, n)
    ensures Round(next, n) == Some(Multiple(d, n))
  {
    if n > 0 {
      RoundIsMultiple(next, d, n - 1);
      assert next(Multiple(d, n - 1)) == Some(Multiple(d, n - 1 + 1));
    }
  }

  lemma StepToBreak(length: nat, position: nat, k: nat, n: nat, maxChunkSize: nat, overlap: nat, d: nat)
    requires maxChunkSize == overlap + d && k < n && Multiple(d, n) + overlap <= position
    requires position + maxChunkSize + overlap + 100 <= length
    ensures Stepping(LettersWithBreak(length, position), maxChunkSize, overlap)(Multiple(d, k))
            == Some(Multiple(d, k + 1))
  {
    MultiplesGrow(d, k + 1, n);
    var start, next := Multiple(d, k), Multiple(d, k + 1);
    FullRound(length, position, start, next, maxChunkSize, overlap);
  }

  /** Up to the newline every window has its largest size. */
  lemma StepsToBreak(length: nat, position: nat, n: nat, maxChunkSize: nat, overlap: nat, d: nat)
    requires maxChunkSize == overlap + d && Multiple(d, n) + overlap <= position
    requires position + maxChunkSize + overlap + 100 <= length
    ensures StepsBy(Stepping(LettersWithBreak(length, position), maxChunkSize, overlap), d, n)
  {
    var next := Stepping(LettersWithBreak(length, position), maxChunkSize, overlap);
    forall k: nat | k < n ensures next(Multiple(d, k)) == Some(Multiple(d, k + 1)) {
      StepToBreak(length, position, k, n, maxChunkSize, overlap, d);
    }
  }

  /** At the newline the start index stays where it is. */
  lemma StuckAtBreak(length: nat, position: nat, start: nat, maxChunkSize: nat, overlap: nat)
    requires overlap < maxChunkSize <= overlap + 100 && start >= 100 && position == start + overlap
    requires length == position + maxChunkSize + overlap + 100
    ensures Stepping(LettersWithBreak(length, position), maxChunkSize, overlap)(start) == Some(start)
  {
    WindowAtBreak(length, position, start, maxChunkSize);
  }

  /**
   A trimmed text on which the loop never ends, for every size that is not above the overlap by more than a hundred.
   */
  lemma EndlessText(maxChunkSize: nat, overlap: nat) returns (t: Text)
    requires maxChunkSize <= overlap + 100
    ensures Trim(t) == t && |t| > maxChunkSize && !LoopEnds(t, maxChunkSize, overlap)
  {
    if maxChunkSize <= overlap {
      t := LettersWithBreak(overlap + 1, -1);
      LettersAreTrimmed(overlap + 1, -1);
      NeverRises(maxChunkSize, overlap);
      GoesOn(Stepping(t, maxChunkSize, overlap));
    } else {
      var d := maxChunkSize - overlap;
      var start := Multiple(d, 100);
      var position := start + overlap;
      var length := position + maxChunkSize + overlap + 100;
      t := LettersWithBreak(length, position);
      LettersAreTrimmed(length, position);
      StepsToBreak(length, position, 100, maxChunkSize, overlap, d);
      StuckAtBreak(length, position, start, maxChunkSize, overlap);
      GoesOnFrom(Stepping(t, maxChunkSize, overlap), d, 100);
    }
  }

  lemma GoesOn(next: Stepper)
    requires StaysLow(next)
    ensures forall n: nat :: Round(next, n).Some?
  {
    forall n: nat ensures Round(next, n).Some? {
      LowForEver(next, n);
    }
  }

  lemma GoesOnFrom(next: Stepper, d: nat, m: nat)
    requires StepsBy(next, d, m) && next(Multiple(d, m)) == Some(Multiple(d, m))
    ensures forall n: nat :: Round(next, n).Some?
  {
    RoundIsMultiple(next, d, m);
    forall n: nat ensures Round(next, n).Some? {
      StaysThere(next, m, Multiple(d, m), n);
    }
  }

  /** The loop ends on every trimmed text longer than a chunk if and only if maxChunkSize > overlap + 100. */
  lemma LoopEndsIff(maxChunkSize: nat, overlap: nat)
    ensures (forall t: Text :: Trim(t) == t && |t| > maxChunkSize ==> LoopEnds(t, maxChunkSize, overlap)) <==>
            maxChunkSize > overlap + 100
  {
    if maxChunkSize > overlap + 100 {
      forall t: Text | Trim(t) == t && |t| > maxChunkSize ensures LoopEnds(t, maxChunkSize, overlap) {
        SteppingRises(t, maxChunkSize, overlap);
        RisingEnds(Stepping(t, maxChunkSize, overlap), |t|, |t|);
      }
    } else {
      var t := EndlessText(maxChunkSize, overlap);
    }
  }

  // ---- The chunks --------------------------------------------------------------------------------------------

  /** The splitting rule as a function of the start index. */
  type Splitter = nat -> int

  function SplitRule(t: Text, maxChunkSize: nat): Splitter {
    (start: nat) => if start + maxChunkSize < |t| then SplitEnd(t, start, maxChunkSize) else 0
  }

  /** What the windows need of a rule: it moves an end back by at most a hundred. */
  ghost predicate SplitsLate(split: Splitter, length: nat, maxChunkSize: nat) {
    forall start: nat :: start + maxChunkSize < length ==>
        start + maxChunkSize - 100 <= split(start) <= start + maxChunkSize
  }

  lemma SplitRuleSplitsLate(t: Text, maxChunkSize: nat)
    requires maxChunkSize >= 100
    ensures SplitsLate(SplitRule(t, maxChunkSize), |t|, maxChunkSize)
  {
    forall start: nat | start + maxChunkSize < |t|
      ensures start + maxChunkSize - 100 <= SplitRule(t, maxChunkSize)(start) <= start + maxChunkSize
    {
      SplitEndBounds(t, start, maxChunkSize);
    }
  }

  datatype Window = Window(from: nat, to: nat)

  ghost predicate WindowOk(t: Text, w: Window, maxChunkSize: nat) {
    w.from < w.to <= |t| && w.to <= w.from + maxChunkSize
  }

  /** Each next window begins `overlap` before the end of the one before, and later than it began. */
  ghost predicate Follows(w: Window, next: Window, overlap: nat) {
    next.from == w.to - overlap && w.from < next.from
  }

  ghost predicate LinkedAt(ws: seq<Window>, k: nat, overlap: nat)
    requires k + 1 < |ws|
  {
    Follows(ws[k], ws[k + 1], overlap)
  }

  ghost predicate Linked(ws: seq<Window>, overlap: nat) {
    forall k :: 0 <= k < |ws| - 1 ==> LinkedAt(ws, k, overlap)
  }

  ghost predicate Within(t: Text, ws: seq<Window>, maxChunkSize: nat) {
    forall w :: w in ws ==> WindowOk(t, w, maxChunkSize)
  }

  /** The windows from a start index on. */
  function Windows(t: Text, split: Splitter, start: nat, maxChunkSize: nat, overlap: nat): (ws: seq<Window>)
    requires maxChunkSize > overlap + 100 && start < |t| && SplitsLate(split, |t|, maxChunkSize)
    decreases |t| - start
  {
    if start + maxChunkSize >= |t| then [Window(start, |t|)]
    else
      var end := split(start);
      [Window(start, end)] + Windows(t, split, end - overlap, maxChunkSize, overlap)
  }

  lemma {:induction false} WindowsAreWithin(t: Text, split: Splitter, start: nat, maxChunkSize: nat, overlap: nat)
    requires maxChunkSize > overlap + 100 && start < |t| && SplitsLate(split, |t|, maxChunkSize)
    ensures Within(t, Windows(t, split, start, maxChunkSize, overlap), maxChunkSize)
    decreases |t| - start
  {
    if start + maxChunkSize < |t| {
      WindowsAreWithin(t, split, split(start) - overlap, maxChunkSize, overlap);
    }
  }

  /** The windows start where asked, each follows the one before, and the last ends with the text. */
  lemma {:induction false} WindowsAreLinked(t: Text, split: Splitter, start: nat, maxChunkSize: nat, overlap: nat)
    requires maxChunkSize > overlap + 100 && start < |t| && SplitsLate(split, |t|, maxChunkSize)
    ensures var ws := Windows(t, split, start, maxChunkSize, overlap);
            ws != [] && ws[0].from == start && ws[|ws| - 1].to == |t| && Linked(ws, overlap)
    decreases |t| - start
  {
    if start + maxChunkSize < |t| {
      var end := split(start);
      WindowsAreLinked(t, split, end - overlap, maxChunkSize, overlap);
      LinkFirst(Window(start, end), Windows(t, split, end - overlap, maxChunkSize, overlap), overlap);
    }
  }

  lemma LinkFirst(w: Window, rest: seq<Window>, overlap: nat)
    requires rest != [] && Follows(w, rest[0], overlap) && Linked(rest, overlap)
    ensures var ws := [w] + rest; ws[0] == w && ws[|ws| - 1] == rest[|rest| - 1] && Linked(ws, overlap)
  {
    var ws := [w] + rest;
    forall k | 0 <= k < |ws| - 1 ensures LinkedAt(ws, k, overlap) {
      if k > 0 {
        assert LinkedAt(rest, k - 1, overlap);
      }
    }
  }

  function NonEmpty(c: Text): seq<Text> {
    if |c| > 0 then [c] else []
  }

  function Piece(t: Text, w: Window): Text {
    Trim(Slice(t, w.from, w.to))
  }

  /** The trimmed windows, without those that hold only white space. */
  function Pieces(t: Text, ws: seq<Window>): seq<Text> {
    if ws == [] then [] else NonEmpty(Piece(t, ws[0])) + Pieces(t, ws[1..])
  }

  function WindowsFrom(t: Text, start: nat, maxChunkSize: nat, overlap: nat): (ws: seq<Window>)
    requires maxChunkSize > overlap + 100 && start < |t|
  {
    SplitRuleSplitsLate(t, maxChunkSize);
    Windows(t, SplitRule(t, maxChunkSize), start, maxChunkSize, overlap)
  }

  function Chunks(text: Text, maxChunkSize: nat, overlap: nat): seq<Text>
    requires maxChunkSize > overlap + 100
  {
    var t := Trim(text);
    if t == [] then [] else if |t| <= maxChunkSize then [t] else Pieces(t, WindowsFrom(t, 0, maxChunkSize, overlap))
  }

  lemma {:induction false} PieceIsThere(t: Text, ws: seq<Window>, w: Window)
    requires w in ws && Piece(t, w) != []
    ensures Piece(t, w) in Pieces(t, ws)
  {
    if w in ws[1..] {
      PieceIsThere(t, ws[1..], w);
    }
  }

  ghost predicate OccursAt(t: Text, c: Text, a: nat) {
    a + |c| <= |t| && t[a..a + |c|] == c
  }

  ghost predicate Holds(t: Text, c: Text, p: nat) {
    exists a: nat :: OccursAt(t, c, a) && a <= p < a + |c|
  }

  /** Trimming keeps one stretch, which holds every position that is not white space. */
  lemma TrimKeeps(s: Text, p: nat)
    requires p < |s| && !IsSpace(s[p])
    ensures OccursAt(s, Trim(s), FirstKept(s, 0)) && FirstKept(s, 0) <= p < FirstKept(s, 0) + |Trim(s)|
  {
    LeadingIsSpace(s, 0);
    TrailingIsSpace(s, |s|);
  }

  lemma OccursInside(t: Text, from: nat, to: nat, c: Text, a: nat)
    requires from <= to <= |t| && OccursAt(t[from..to], c, a)
    ensures OccursAt(t, c, from + a)
  {
    var s := t[from..to];
    forall i | 0 <= i < |c| ensures t[from + a..from + a + |c|][i] == c[i] {
      assert c[i] == s[a..a + |c|][i] == s[a + i] == t[from + a + i];
    }
  }

  lemma PieceHolds(t: Text, w: Window, p: nat)
    requires w.from <= p < w.to <= |t| && !IsSpace(t[p])
    ensures Piece(t, w) != [] && Holds(t, Piece(t, w), p)
  {
    var s := t[w.from..w.to];
    assert s[p - w.from] == t[p];
    TrimKeeps(s, p - w.from);
    OccursInside(t, w.from, w.to, Piece(t, w), FirstKept(s, 0));
  }

  /** Every position lies in some window: windows overlap or touch. */
  lemma {:induction false} SomeWindowHolds(t: Text, split: Splitter, start: nat, maxChunkSize: nat, overlap: nat,
                                           p: nat)
    returns (w: Window)
    requires maxChunkSize > overlap + 100 && start <= p < |t| && SplitsLate(split, |t|, maxChunkSize)
    ensures w in Windows(t, split, start, maxChunkSize, overlap) && w.from <= p < w.to <= |t|
    decreases |t| - start
  {
    if start + maxChunkSize >= |t| {
      w := Window(start, |t|);
    } else {
      var end := split(start);
      if p < end {
        w := Window(start, end);
      } else {
        w := SomeWindowHolds(t, split, end - overlap, maxChunkSize, overlap, p);
      }
    }
  }

  /** Nothing is lost: every position of the trimmed text that is not white space lies in some chunk. */
  lemma NothingIsLost(text: Text, maxChunkSize: nat, overlap: nat, p: nat)
    requires maxChunkSize > overlap + 100
    requires p < |Trim(text)| && !IsSpace(Trim(text)[p])
    ensures exists c :: c in Chunks(text, maxChunkSize, overlap) && Holds(Trim(text), c, p)
  {
    var t := Trim(text);
    if |t| <= maxChunkSize {
      assert OccursAt(t, t, 0);
      assert Holds(t, t, p) && t in Chunks(text, maxChunkSize, overlap);
    } else {
      SplitRuleSplitsLate(t, maxChunkSize);
      var w := SomeWindowHolds(t, SplitRule(t, maxChunkSize), 0, maxChunkSize, overlap, p);
      PieceHolds(t, w, p);
      PieceIsThere(t, WindowsFrom(t, 0, maxChunkSize, overlap), w);
    }
  }

  /** A non-empty trimmed stretch of the text, no longer than maxChunkSize. */
  ghost predicate Proper(t: Text, c: Text, maxChunkSize: nat) {
    c != [] && |c| <= maxChunkSize && Trim(c) == c && exists a: nat :: OccursAt(t, c, a)
  }

  lemma PieceIsProper(t: Text, w: Window, maxChunkSize: nat)
    requires WindowOk(t, w, maxChunkSize) && Piece(t, w) != []
    ensures Proper(t, Piece(t, w), maxChunkSize)
  {
    var s := t[w.from..w.to];
    TrimIdempotent(s);
    assert OccursAt(s, Trim(s), FirstKept(s, 0));
    OccursInside(t, w.from, w.to, Piece(t, w), FirstKept(s, 0));
  }

  lemma {:induction false} PiecesAreProper(t: Text, ws: seq<Window>, maxChunkSize: nat)
    requires Within(t, ws, maxChunkSize)
    ensures forall c :: c in Pieces(t, ws) ==> Proper(t, c, maxChunkSize)
  {
    if ws != [] {
      PiecesAreProper(t, ws[1..], maxChunkSize);
      if Piece(t, ws[0]) != [] {
        assert ws[0] in ws;
        PieceIsProper(t, ws[0], maxChunkSize);
      }
    }
  }

  lemma TrimIdempotent(t: Text)
    ensures Trim(Trim(t)) == Trim(t)
  {
    var r := Trim(t);
    TrimmedEnds(t);
    if r != [] {
      assert FirstKept(r, 0) == 0 && AfterKept(r, |r|) == |r|;
    }
  }

  /** Every chunk is proper, and there are chunks exactly when the text is not blank. */
  lemma ChunksAreProper(text: Text, maxChunkSize: nat, overlap: nat)
    requires maxChunkSize > overlap + 100
    ensures forall c :: c in Chunks(text, maxChunkSize, overlap) ==> Proper(Trim(text), c, maxChunkSize)
    ensures Chunks(text, maxChunkSize, overlap) == [] <==> Trim(text) == []
  {
    var t := Trim(text);
    if t != [] {
      TrimmedEnds(text);
      NothingIsLost(text, maxChunkSize, overlap, 0);
      if |t| > maxChunkSize {
        SplitRuleSplitsLate(t, maxChunkSize);
        WindowsAreWithin(t, SplitRule(t, maxChunkSize), 0, maxChunkSize, overlap);
        PiecesAreProper(t, WindowsFrom(t, 0, maxChunkSize, overlap), maxChunkSize);
      } else {
        TrimIdempotent(text);
        assert OccursAt(t, t, 0);
      }
    }
  }

  lemma LastPieceIsNotEmpty(text: Text, start: nat)
    requires start < |Trim(text)|
    ensures Trim(Trim(text)[start..]) != []
  {
    var s := Trim(text)[start..];
    TrimmedEnds(text);
    assert !IsSpace(s[|s| - 1]);
    TrimKeeps(s, |s| - 1);
  }

  lemma FirstWindow(t: Text, start: nat, maxChunkSize: nat, overlap: nat) returns (end: nat, next: nat)
    requires maxChunkSize > overlap + 100 && start + maxChunkSize < |t|
    ensures end == SplitEnd(t, start, maxChunkSize) && next == end - overlap && start < next < |t| - overlap
    ensures WindowsFrom(t, start, maxChunkSize, overlap)
            == [Window(start, end)] + WindowsFrom(t, next, maxChunkSize, overlap)
  {
    SplitEndBounds(t, start, maxChunkSize);
    SplitRuleSplitsLate(t, maxChunkSize);
    end := SplitRule(t, maxChunkSize)(start);
    next := end - overlap;
  }

  lemma Regroup(a: seq<Text>, b: seq<Text>, c: seq<Text>)
    ensures a + (b + c) == (a + b) + c
  {
  }

  lemma PiecesFront(t: Text, w: Window, ws: seq<Window>)
    ensures Pieces(t, [w] + ws) == NonEmpty(Piece(t, w)) + Pieces(t, ws)
  {
    assert ([w] + ws)[1..] == ws;
  }

  lemma TakeLastWindow(text: Text, start: nat, maxChunkSize: nat, overlap: nat)
    requires maxChunkSize > overlap + 100 && start < |Trim(text)| <= start + maxChunkSize
    ensures var t := Trim(text); Pieces(t, WindowsFrom(t, start, maxChunkSize, overlap)) == [Trim(t[start..])]
  {
    var t := Trim(text);
    SplitRuleSplitsLate(t, maxChunkSize);
    LastPieceIsNotEmpty(text, start);
    assert t[start..] == t[start..|t|];
  }

  // ---- The loop for any sizes -----------------------------------------------------------------------------------

  /** The pieces that a round takes, by its start index. */
  type Taker = int -> seq<Text>

  function Taking(t: Text, maxChunkSize: nat): Taker {
    (start: int) =>
      if start >= |t| then []
      else if start + maxChunkSize >= |t| then [Trim(Slice(t, start, |t|))]
      else NonEmpty(Trim(Slice(t, start, SplitEnd(t, start, maxChunkSize))))
  }

  /** A round that begins at start is the last of at most n. */
  ghost predicate EndsWithin(next: Stepper, start: int, n: nat)
    decreases n
  {
    n > 0 && (next(start).None? || EndsWithin(next, next(start).value, n - 1))
  }

  /** The pieces of at most n rounds, the first beginning at start. */
  ghost function Taken(next: Stepper, take: Taker, start: int, n: nat): seq<Text>
    decreases n
  {
    if n == 0 then []
    else if next(start).None? then take(start)
    else take(start) + Taken(next, take, next(start).value, n - 1)
  }

  /** Rounds that the loop does not reach take nothing. */
  lemma {:induction false} MoreRounds(next: Stepper, take: Taker, start: int, n: nat, m: nat)
    requires EndsWithin(next, start, n) && n <= m
    ensures Taken(next, take, start, n) == Taken(next, take, start, m)
    decreases n
  {
    if next(start).Some? {
      MoreRounds(next, take, next(start).value, n - 1, m - 1);
    }
  }

  lemma {:induction false} EndsFromRound(next: Stepper, k: nat, start: int, n: nat, m: nat)
    requires Round(next, k) == Some(start) && Round(next, m).None? && k + n == m
    ensures EndsWithin(next, start, n)
    decreases n
  {
    if n > 0 && next(start).Some? {
      EndsFromRound(next, k + 1, next(start).value, n - 1, m);
    }
  }

  /** No loop is needed, or the loop ends. */
  ghost predicate Answers(text: Text, maxChunkSize: nat, overlap: nat) {
    |Trim(text)| <= maxChunkSize || LoopEnds(Trim(text), maxChunkSize, overlap)
  }

  ghost function EnoughRounds(t: Text, maxChunkSize: nat, overlap: nat): (n: nat)
    requires LoopEnds(t, maxChunkSize, overlap)
    ensures EndsWithin(Stepping(t, maxChunkSize, overlap), 0, n)
  {
    var n: nat :| Round(Stepping(t, maxChunkSize, overlap), n).None?;
    EndsFromRound(Stepping(t, maxChunkSize, overlap), 0, 0, n, n);
    n
  }

  /** What chunkText answers: the pieces of all rounds. */
  ghost function Chunked(text: Text, maxChunkSize: nat, overlap: nat): seq<Text>
    requires Answers(text, maxChunkSize, overlap)
  {
    var t := Trim(text);
    if t == [] then [] else if |t| <= maxChunkSize then [t]
    else
      var pieces := Taken(Stepping(t, maxChunkSize, overlap), Taking(t, maxChunkSize), 0,
                          EnoughRounds(t, maxChunkSize, overlap));
      if |pieces| > 0 then pieces else [t]
  }

  /** The answer does not depend on how many more rounds are allowed. */
  lemma ChunkedIsTaken(text: Text, maxChunkSize: nat, overlap: nat, n: nat)
    requires Answers(text, maxChunkSize, overlap) && |Trim(text)| > maxChunkSize
    requires EndsWithin(Stepping(Trim(text), maxChunkSize, overlap), 0, n)
    ensures var pieces := Taken(Stepping(Trim(text), maxChunkSize, overlap), Taking(Trim(text), maxChunkSize), 0, n);
            Chunked(text, maxChunkSize, overlap) == if |pieces| > 0 then pieces else [Trim(text)]
  {
    var next, take := Stepping(Trim(text), maxChunkSize, overlap), Taking(Trim(text), maxChunkSize);
    var m := EnoughRounds(Trim(text), maxChunkSize, overlap);
    if n <= m {
      MoreRounds(next, take, 0, n, m);
    } else {
      MoreRounds(next, take, 0, m, n);
    }
  }

  /** A round that does not reach the end of the text. */
  lemma RoundIs(t: Text, start: int, end: int, from: int, maxChunkSize: nat, overlap: nat)
    requires start < |t| && start + maxChunkSize < |t| && end == SplitEnd(t, start, maxChunkSize)
             && from == end - overlap
    ensures from < |t| - overlap ==> Stepping(t, maxChunkSize, overlap)(start) == Some(from)
    ensures from >= |t| - overlap ==> Stepping(t, maxChunkSize, overlap)(start) == None
    ensures Taking(t, maxChunkSize)(start) == NonEmpty(Trim(Slice(t, start, end)))
  {
    assert NextStart(t, start, maxChunkSize, overlap) == if from >= |t| - overlap then None else Some(from);
  }

  lemma LastRound(text: Text, start: nat, maxChunkSize: nat, overlap: nat)
    requires maxChunkSize > overlap + 100 && start < |Trim(text)| <= start + maxChunkSize
    ensures var t := Trim(text);
            && Stepping(t, maxChunkSize, overlap)(start).None?
            && Taking(t, maxChunkSize)(start) == Pieces(t, WindowsFrom(t, start, maxChunkSize, overlap))
  {
    TakeLastWindow(text, start, maxChunkSize, overlap);
    assert Slice(Trim(text), start, |Trim(text)|) == Trim(text)[start..];
  }

  lemma InnerRound(t: Text, start: nat, maxChunkSize: nat, overlap: nat) returns (end: nat, from: nat)
    requires maxChunkSize > overlap + 100 && start + maxChunkSize < |t|
    ensures from < |t| && Stepping(t, maxChunkSize, overlap)(start) == Some(from)
    ensures Taking(t, maxChunkSize)(start) == NonEmpty(Trim(Slice(t, start, end)))
    ensures WindowsFrom(t, start, maxChunkSize, overlap)
            == [Window(start, end)] + WindowsFrom(t, from, maxChunkSize, overlap)
  {
    end, from := FirstWindow(t, start, maxChunkSize, overlap);
    RoundIs(t, start, end, from, maxChunkSize, overlap);
  }

  lemma FirstPiece(t: Text, w: Window, rest: seq<Window>, ws: seq<Window>, piece: seq<Text>)
    requires ws == [w] + rest && piece == NonEmpty(Trim(Slice(t, w.from, w.to)))
    ensures Pieces(t, ws) == piece + Pieces(t, rest)
  {
    PiecesFront(t, w, rest);
  }

  /** With the sizes for which the loop always ends, the pieces of all rounds are those of the windows. */
  lemma {:induction false} RoundsAreWindows(text: Text, start: nat, n: nat, maxChunkSize: nat, overlap: nat)
    requires maxChunkSize > overlap + 100 && start < |Trim(text)|
    requires EndsWithin(Stepping(Trim(text), maxChunkSize, overlap), start, n)
    ensures var t := Trim(text);
            Taken(Stepping(t, maxChunkSize, overlap), Taking(t, maxChunkSize), start, n)
            == Pieces(t, WindowsFrom(t, start, maxChunkSize, overlap))
    decreases n
  {
    var t := Trim(text);
    if start + maxChunkSize >= |t| {
      LastRound(text, start, maxChunkSize, overlap);
    } else {
      var end, from := InnerRound(t, start, maxChunkSize, overlap);
      RoundsAreWindows(text, from, n - 1, maxChunkSize, overlap);
      FirstPiece(t, Window(start, end), WindowsFrom(t, from, maxChunkSize, overlap),
                 WindowsFrom(t, start, maxChunkSize, overlap), Taking(t, maxChunkSize)(start));
    }
  }

  /** With the sizes for which the loop always ends, the answer is the chunks of the windows. */
  lemma ChunkedIsChunks(text: Text, maxChunkSize: nat, overlap: nat)
    requires maxChunkSize > overlap + 100
    ensures Answers(text, maxChunkSize, overlap)
            && Chunked(text, maxChunkSize, overlap) == Chunks(text, maxChunkSize, overlap)
  {
    var t := Trim(text);
    SteppingRises(t, maxChunkSize, overlap);
    RisingEnds(Stepping(t, maxChunkSize, overlap), |t|, |t|);
    if |t| > maxChunkSize {
      RoundsAreWindows(text, 0, EnoughRounds(t, maxChunkSize, overlap), maxChunkSize, overlap);
      ChunksAreProper(text, maxChunkSize, overlap);
    }
  }

  /** One round: what it takes, and what is left. */
  lemma TakeRound(next: Stepper, take: Taker, chunks: seq<Text>, start: int, n: nat)
    returns (following: Option<int>, left: nat, rest: seq<Text>)
    requires EndsWithin(next, start, n)
    ensures following == next(start) && left < n
    ensures if following.None? then rest == []
            else EndsWithin(next, following.value, left) && rest == Taken(next, take, following.value, left)
    ensures chunks + Taken(next, take, start, n) == (chunks + take(start)) + rest
  {
    following, left := next(start), n - 1;
    rest := if following.None? then [] else Taken(next, take, following.value, left);
  }

  /** What the rounds of the loop do at a start index. */
  ghost predicate RoundOk(next: Stepper, take: Taker, t: Text, maxChunkSize: nat, overlap: nat, start: int) {
    && next(start) == Stepping(t, maxChunkSize, overlap)(start)
    && take(start) == Taking(t, maxChunkSize)(start)
  }

  ghost predicate RoundsOk(next: Stepper, take: Taker, t: Text, maxChunkSize: nat, overlap: nat) {
    forall start: int :: RoundOk(next, take, t, maxChunkSize, overlap, start)
  }

  /** The end of a window and its piece. */
  method CutWindow(cleanText: Text, startIndex: int, maxChunkSize: nat, overlap: nat, ghost next: Stepper,
                   ghost take: Taker)
    returns (endIndex: int, chunk: Text)
    requires RoundsOk(next, take, cleanText, maxChunkSize, overlap)
    requires startIndex < |cleanText| && startIndex + maxChunkSize < |cleanText|
    ensures next(startIndex) == if endIndex - overlap >= |cleanText| - overlap then None else Some(endIndex - overlap)
    ensures take(startIndex) == NonEmpty(chunk)
  {
    endIndex := SplitEnd(cleanText, startIndex, maxChunkSize);
    chunk := Trim(Slice(cleanText, startIndex, endIndex));
    assert RoundOk(next, take, cleanText, maxChunkSize, overlap, startIndex);
    RoundIs(cleanText, startIndex, endIndex, endIndex - overlap, maxChunkSize, overlap);
  }

  method CutLastWindow(cleanText: Text, startIndex: int, maxChunkSize: nat, overlap: nat, ghost next: Stepper,
                       ghost take: Taker)
    returns (chunk: Text)
    requires RoundsOk(next, take, cleanText, maxChunkSize, overlap)
    requires startIndex < |cleanText| <= startIndex + maxChunkSize
    ensures next(startIndex).None? && take(startIndex) == [chunk]
  {
    chunk := Trim(Slice(cleanText, startIndex, |cleanText|));
    assert RoundOk(next, take, cleanText, maxChunkSize, overlap, startIndex);
  }

  /** The loop over windows. */
  method ChunkLoop(cleanText: Text, maxChunkSize: nat, overlap: nat, ghost next: Stepper, ghost take: Taker,
                   ghost rounds: nat)
    returns (chunks: seq<Text>)
    requires RoundsOk(next, take, cleanText, maxChunkSize, overlap)
    requires cleanText != [] && EndsWithin(next, 0, rounds)
    ensures chunks == Taken(next, take, 0, rounds)
  {
    chunks := [];
    var startIndex := 0;
    ghost var left, all := rounds, Taken(next, take, 0, rounds);
    ghost var rest := all;
    while startIndex < |cleanText|
      invariant startIndex < |cleanText| && EndsWithin(next, startIndex, left)
      invariant chunks + rest == all && rest == Taken(next, take, startIndex, left)
      decreases left
    {
      ghost var following;
      following, left, rest := TakeRound(next, take, chunks, startIndex, left);
      var endIndex, chunk := startIndex + maxChunkSize, [];
      if endIndex >= |cleanText| {
        chunk := CutLastWindow(cleanText, startIndex, maxChunkSize, overlap, next, take);
        chunks := chunks + [chunk];
        break;
      }
      endIndex, chunk := CutWindow(cleanText, startIndex, maxChunkSize, overlap, next, take);
      assert chunks + [] == chunks;
      if |chunk| > 0 {
        chunks := chunks + [chunk];
      }
      startIndex := endIndex - overlap;
      if startIndex >= |cleanText| - overlap {
        break;
      }
    }
  }

  /** For every text and all sizes with which the loop ends. */
  method ChunkText(text: Text, maxChunkSize: nat, overlap: nat) returns (chunks: seq<Text>)
    requires Answers(text, maxChunkSize, overlap)
    ensures chunks == Chunked(text, maxChunkSize, overlap)
    ensures maxChunkSize > overlap + 100 ==> chunks == Chunks(text, maxChunkSize, overlap)
  {
    if maxChunkSize > overlap + 100 {
      ChunkedIsChunks(text, maxChunkSize, overlap);
    }
    var cleanText := Trim(text);
    if cleanText == [] {
      return [];
    }
    if |cleanText| <= maxChunkSize {
      return [cleanText];
    }
    ghost var next, take := Stepping(cleanText, maxChunkSize, overlap), Taking(cleanText, maxChunkSize);
    chunks := ChunkLoop(cleanText, maxChunkSize, overlap, next, take, EnoughRounds(cleanText, maxChunkSize, overlap));
    chunks := if |chunks| > 0 then chunks else [cleanText];
  }
}

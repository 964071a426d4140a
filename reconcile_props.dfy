/** What the reconciliation pass guarantees: which lines it reads, how each
    action moves the cursor and the output, the two merges, the round trip of
    an unedited overlay, and the contiguity that the merges keep. */
module CorrectionProps {
  import opened Wrappers
  import opened PyText
  import opened Shots
  import opened Overlay
  import opened Correction

  /** The actions that emit exactly one shot. */
  const Appending: set<string> := {"keep", "edit", "add"}

  /** The actions that rebuild a contiguous timeline from a contiguous one. */
  const Merging: set<string> := {"keep", "mergeup", "mergedown"}

  /** The number of lines the pass reads rather than skips. */
  function ProcessedCount(lines: seq<string>): nat
    decreases |lines|
  {
    if lines == [] then 0 else (if IsSkipped(lines[0]) then 0 else 1) + ProcessedCount(lines[1..])
  }

  // ---------------------------------------------------------------------
  // One line at a time

  /** A line that is read and splits into five tokens goes to the pending
      merge or to its action. */
  lemma StepRead(original: seq<Shot>, parseNum: string -> Option<Pts>, st: Engine, line: string)
    requires !IsSkipped(line) && |Split(line)| == 5
    ensures Step(original, parseNum, st, line) ==
      if st.mergedown then Absorb(original, st)
      else Apply(original, parseNum, st, Split(line)[0], Split(line)[1], Split(line)[2], Split(line)[4])
  {
  }

  /** The pending merge emits one shot, moves the cursor by one, keeps the
      output so far and clears the flag. */
  lemma AbsorbAccounting(original: seq<Shot>, st: Engine)
    requires Absorb(original, st).Ok?
    ensures var next := Absorb(original, st).value;
      next.ptr == st.ptr + 1 && !next.mergedown &&
      |next.shots| == |st.shots| + 1 && next.shots[..|st.shots|] == st.shots
  {
    var next := Absorb(original, st).value;
    assert next.shots[..|st.shots|] == st.shots;
  }

  /** Accounting for one action with no merge pending: the cursor, the
      output and the flag, and what `keep`, `edit` and `add` append. `keep`
      fails exactly when the cursor is past the original shots; `edit` and
      `add` fail exactly when a timestamp token is not a number. */
  lemma ApplyAccounting(original: seq<Shot>, parseNum: string -> Option<Pts>, st: Engine,
                        action: string, shotId: string, start: string, end: string)
    ensures action !in Actions ==>
      Apply(original, parseNum, st, action, shotId, start, end) == Err(UnknownAction(action))
    ensures Apply(original, parseNum, st, action, shotId, start, end).Ok? ==>
      var next := Apply(original, parseNum, st, action, shotId, start, end).value;
      action in Actions &&
      next.ptr == (if action == "add" then st.ptr else st.ptr + 1) &&
      |next.shots| == |st.shots| + (if action in Appending then 1 else 0) &&
      (next.mergedown <==> action == "mergedown") &&
      (|st.shots| > 0 ==> next.shots[..|st.shots| - 1] == st.shots[..|st.shots| - 1]) &&
      (action != "mergeup" ==> next.shots[..|st.shots|] == st.shots)
    ensures action == "keep" ==>
      (Apply(original, parseNum, st, action, shotId, start, end).Ok? <==> st.ptr < |original|) &&
      (st.ptr < |original| ==>
        Apply(original, parseNum, st, action, shotId, start, end) ==
          Ok(Engine(st.ptr + 1, st.shots + [original[st.ptr]], false)))
    ensures action == "edit" || action == "add" ==>
      (Apply(original, parseNum, st, action, shotId, start, end).Ok? <==>
        parseNum(start).Some? && parseNum(end).Some?) &&
      (parseNum(start).Some? && parseNum(end).Some? ==>
        Apply(original, parseNum, st, action, shotId, start, end) ==
          Ok(Engine(if action == "add" then st.ptr else st.ptr + 1,
                    st.shots + [Shot(shotId, parseNum(start).value, parseNum(end).value)], false)))
  {
    var r := Apply(original, parseNum, st, action, shotId, start, end);
    if r.Ok? {
      var next := r.value;
      var n := |st.shots|;
      if action in Appending {
        assert next.shots == st.shots + [next.shots[n]];
        assert next.shots[..n] == st.shots;
      } else if action == "mergeup" {
        assert next.shots[..n - 1] == st.shots[..n - 1];
      } else {
        assert next.shots == st.shots;
      }
    }
  }

  /** Per-line accounting. A line that is read and succeeds advances the
      cursor by one (an `add` by none), appends one shot for `keep`, `edit`,
      `add` and the line that resolves a pending `mergedown`, and none for the
      others, and leaves every earlier output shot in place; only `mergeup`
      touches the last one. `keep` appends the original shot under the
      cursor as it is, `edit` and `add` the shot built from the line's own
      id and timestamps. A token other than the six is an error. */
  lemma StepAccounting(original: seq<Shot>, parseNum: string -> Option<Pts>, st: Engine, line: string)
    requires !IsSkipped(line)
    ensures |Split(line)| == 5 && !st.mergedown && Split(line)[0] !in Actions ==>
      Step(original, parseNum, st, line) == Err(UnknownAction(Split(line)[0]))
    ensures Step(original, parseNum, st, line).Ok? ==>
      var next := Step(original, parseNum, st, line).value;
      var tokens := Split(line);
      |tokens| == 5 &&
      (!st.mergedown ==> tokens[0] in Actions) &&
      next.ptr == (if !st.mergedown && tokens[0] == "add" then st.ptr else st.ptr + 1) &&
      |next.shots| == |st.shots| + (if st.mergedown || tokens[0] in Appending then 1 else 0) &&
      (next.mergedown <==> !st.mergedown && tokens[0] == "mergedown") &&
      (|st.shots| > 0 ==> next.shots[..|st.shots| - 1] == st.shots[..|st.shots| - 1]) &&
      (st.mergedown || tokens[0] != "mergeup" ==> next.shots[..|st.shots|] == st.shots) &&
      (!st.mergedown && tokens[0] == "keep" ==>
        st.ptr < |original| && next.shots[|st.shots|] == original[st.ptr]) &&
      (!st.mergedown && (tokens[0] == "edit" || tokens[0] == "add") ==>
        parseNum(tokens[2]).Some? && parseNum(tokens[4]).Some? &&
        next.shots[|st.shots|] == Shot(tokens[1], parseNum(tokens[2]).value, parseNum(tokens[4]).value))
  {
    var tokens := Split(line);
    if |tokens| == 5 {
      StepRead(original, parseNum, st, line);
      if st.mergedown {
        if Absorb(original, st).Ok? {
          AbsorbAccounting(original, st);
          var n := |st.shots|;
          var next := Absorb(original, st).value;
          if n > 0 {
            assert next.shots[..n - 1] == next.shots[..n][..n - 1];
          }
        }
      } else {
        ApplyAccounting(original, parseNum, st, tokens[0], tokens[1], tokens[2], tokens[4]);
      }
    }
  }

  /** Line filtering: a line leaves the state as it is exactly when it is
      skipped, and it is skipped exactly when it is all whitespace or its
      first raw character is `#`. A line that is read must split into five
      tokens or the pass stops. */
  lemma LineFiltering(original: seq<Shot>, parseNum: string -> Option<Pts>, st: Engine, line: string)
    ensures Step(original, parseNum, st, line) == Ok(st) <==> IsSkipped(line)
    ensures IsSkipped(line) <==> AllSpace(line) || (|line| > 0 && line[0] == '#')
    ensures !IsSkipped(line) && |Split(line)| != 5 ==>
      Step(original, parseNum, st, line) == Err(MalformedLine(line))
  {
    if !IsSkipped(line) {
      StepAccounting(original, parseNum, st, line);
    }
  }

  /** An indented `#` line is not a comment: the pass reads it and it
      cannot leave the state unchanged. */
  lemma IndentedCommentIsRead(original: seq<Shot>, parseNum: string -> Option<Pts>, st: Engine, line: string)
    requires |line| > 0 && IsSpace(line[0]) && '#' in line
    ensures !IsSkipped(line)
    ensures Step(original, parseNum, st, line) != Ok(st)
  {
    var i :| 0 <= i < |line| && line[i] == '#';
    assert !IsSpace(line[i]);
    assert !AllSpace(line);
    assert line[0] != '#';
    LineFiltering(original, parseNum, st, line);
  }

  /** `mergeup` with no merge pending, on the action's fields. */
  lemma ApplyMergeUp(original: seq<Shot>, parseNum: string -> Option<Pts>, st: Engine,
                     action: string, shotId: string, start: string, end: string)
    requires action == "mergeup"
    ensures st.shots == [] ==> Apply(original, parseNum, st, action, shotId, start, end) == Err(MergeUpToNothing)
    ensures st.shots != [] && st.ptr >= |original| ==>
      Apply(original, parseNum, st, action, shotId, start, end) == Err(ShotIndexOutOfRange(st.ptr))
    ensures st.shots != [] && st.ptr < |original| ==>
      Apply(original, parseNum, st, action, shotId, start, end).Ok? &&
      var next := Apply(original, parseNum, st, action, shotId, start, end).value;
      var n := |st.shots|;
      next.ptr == st.ptr + 1 && !next.mergedown &&
      |next.shots| == n && next.shots[..n - 1] == st.shots[..n - 1] &&
      next.shots[n - 1].shotId == st.shots[n - 1].shotId &&
      next.shots[n - 1].startPts == st.shots[n - 1].startPts &&
      next.shots[n - 1].endPts == original[st.ptr].endPts
  {
    if st.shots != [] && st.ptr < |original| {
      var n := |st.shots|;
      var next := Apply(original, parseNum, st, action, shotId, start, end).value;
      assert next.shots == st.shots[..n - 1] + [st.shots[n - 1].(endPts := original[st.ptr].endPts)];
      assert next.shots[..n - 1] == st.shots[..n - 1];
    }
  }

  /** `mergeup`: an error with nothing emitted; otherwise the output keeps its
      length and every shot but the last, and the last keeps its id and start
      and takes the end of the current original shot. */
  lemma MergeUpStep(original: seq<Shot>, parseNum: string -> Option<Pts>, st: Engine, line: string)
    requires !IsSkipped(line) && |Split(line)| == 5 && Split(line)[0] == "mergeup" && !st.mergedown
    ensures st.shots == [] ==> Step(original, parseNum, st, line) == Err(MergeUpToNothing)
    ensures st.shots != [] && st.ptr >= |original| ==>
      Step(original, parseNum, st, line) == Err(ShotIndexOutOfRange(st.ptr))
    ensures st.shots != [] && st.ptr < |original| ==>
      Step(original, parseNum, st, line).Ok? &&
      var next := Step(original, parseNum, st, line).value;
      var n := |st.shots|;
      next.ptr == st.ptr + 1 && !next.mergedown &&
      |next.shots| == n && next.shots[..n - 1] == st.shots[..n - 1] &&
      next.shots[n - 1].shotId == st.shots[n - 1].shotId &&
      next.shots[n - 1].startPts == st.shots[n - 1].startPts &&
      next.shots[n - 1].endPts == original[st.ptr].endPts
  {
    var tokens := Split(line);
    StepRead(original, parseNum, st, line);
    ApplyMergeUp(original, parseNum, st, tokens[0], tokens[1], tokens[2], tokens[4]);
  }

  /** `mergedown` with no merge pending, on the action's fields. */
  lemma ApplyMergeDown(original: seq<Shot>, parseNum: string -> Option<Pts>, st: Engine,
                       action: string, shotId: string, start: string, end: string)
    requires action == "mergedown"
    ensures Apply(original, parseNum, st, action, shotId, start, end) == Err(MergeDownToNothing) <==>
      st.ptr + 1 >= |original|
    ensures st.ptr + 1 < |original| ==>
      Apply(original, parseNum, st, action, shotId, start, end) == Ok(Engine(st.ptr + 1, st.shots, true))
  {
  }

  /** `mergedown`: an error exactly when there is no next original shot;
      otherwise it emits nothing and sets the flag. */
  lemma MergeDownStep(original: seq<Shot>, parseNum: string -> Option<Pts>, st: Engine, line: string)
    requires !IsSkipped(line) && |Split(line)| == 5 && Split(line)[0] == "mergedown" && !st.mergedown
    ensures Step(original, parseNum, st, line) == Err(MergeDownToNothing) <==> st.ptr + 1 >= |original|
    ensures st.ptr + 1 < |original| ==>
      Step(original, parseNum, st, line) == Ok(Engine(st.ptr + 1, st.shots, true))
  {
    var tokens := Split(line);
    StepRead(original, parseNum, st, line);
    ApplyMergeDown(original, parseNum, st, tokens[0], tokens[1], tokens[2], tokens[4]);
  }

  /** A `mergedown` and the next line read, whatever that line's action
      (another `mergedown` included), together emit the next original shot
      stretched back to the start of the absorbed one. */
  lemma MergeDownAbsorbsNext(original: seq<Shot>, parseNum: string -> Option<Pts>, st: Engine,
                             down: string, next: string)
    requires !IsSkipped(down) && |Split(down)| == 5 && Split(down)[0] == "mergedown"
    requires !st.mergedown && st.ptr + 1 < |original|
    requires !IsSkipped(next) && |Split(next)| == 5
    ensures Run(original, parseNum, st, [down, next]) ==
      Ok(Engine(st.ptr + 2,
                st.shots + [Shot(original[st.ptr + 1].shotId, original[st.ptr].startPts,
                                 original[st.ptr + 1].endPts)],
                false))
  {
    var mid := Engine(st.ptr + 1, st.shots, true);
    MergeDownStep(original, parseNum, st, down);
    StepRead(original, parseNum, mid, next);
    AbsorbValue(original, mid);
    RunTwo(original, parseNum, st, down, next, mid,
           Engine(st.ptr + 2, st.shots + [original[st.ptr + 1].(startPts := original[st.ptr].startPts)], false));
  }

  /** Two lines that succeed in turn. */
  lemma RunTwo(original: seq<Shot>, parseNum: string -> Option<Pts>, st: Engine,
               a: string, b: string, mid: Engine, fin: Engine)
    requires Step(original, parseNum, st, a) == Ok(mid) && Step(original, parseNum, mid, b) == Ok(fin)
    ensures Run(original, parseNum, st, [a, b]) == Ok(fin)
  {
    var lines := [a, b];
    RunNext(original, parseNum, st, lines, 0, mid);
    RunNext(original, parseNum, mid, lines, 1, fin);
    assert lines[0..] == lines;
    assert lines[2..] == [];
  }

  /** The shot a pending mergedown emits, when both shots exist. */
  lemma AbsorbValue(original: seq<Shot>, st: Engine)
    requires 1 <= st.ptr < |original|
    ensures Absorb(original, st) ==
      Ok(Engine(st.ptr + 1, st.shots + [original[st.ptr].(startPts := original[st.ptr - 1].startPts)], false))
  {
  }

  // ---------------------------------------------------------------------
  // Whole runs

  /** The pass over two blocks of lines is the pass over the first followed
      by the pass over the second. */
  lemma {:induction false} RunConcat(original: seq<Shot>, parseNum: string -> Option<Pts>, st: Engine,
                                     a: seq<string>, b: seq<string>)
    ensures Run(original, parseNum, st, a + b) ==
      match Run(original, parseNum, st, a)
      case Err(e) => Err(e)
      case Ok(mid) => Run(original, parseNum, mid, b)
    decreases |a|
  {
    if a == [] {
      assert a + b == b;
    } else {
      assert (a + b)[0] == a[0];
      assert (a + b)[1..] == a[1..] + b;
      match Step(original, parseNum, st, a[0])
      case Err(e) =>
      case Ok(next) => RunConcat(original, parseNum, next, a[1..], b);
    }
  }

  /** A `mergedown` on the last line read leaves the flag pending: the pass
      ends with the output it had before, and the shot under the cursor is
      dropped. */
  lemma TrailingMergeDownDropped(original: seq<Shot>, parseNum: string -> Option<Pts>,
                                 lines: seq<string>, st: Engine, down: string)
    requires Run(original, parseNum, Start, lines) == Ok(st) && !st.mergedown && st.ptr + 1 < |original|
    requires !IsSkipped(down) && |Split(down)| == 5 && Split(down)[0] == "mergedown"
    ensures Run(original, parseNum, Start, lines + [down]) == Ok(Engine(st.ptr + 1, st.shots, true))
    ensures Reconcile(original, parseNum, lines + [down]) == Ok(st.shots)
  {
    RunConcat(original, parseNum, Start, lines, [down]);
    MergeDownStep(original, parseNum, st, down);
    assert [down][1..] == [];
  }

  /** Skipped lines change nothing. */
  lemma {:induction false} RunSkipsAll(original: seq<Shot>, parseNum: string -> Option<Pts>, st: Engine, lines: seq<string>)
    requires forall k :: 0 <= k < |lines| ==> IsSkipped(lines[k])
    ensures Run(original, parseNum, st, lines) == Ok(st)
    decreases |lines|
  {
    if lines != [] {
      assert IsSkipped(lines[0]);
      RunSkipsAll(original, parseNum, st, lines[1..]);
    }
  }

  /** The pass reads every `keep` line of a shot whose id has no whitespace:
      it is neither blank nor a comment, and it gives the five fields. */
  lemma KeepLinesRead(shots: seq<Shot>)
    ensures forall k :: 0 <= k < |shots| && IsToken(shots[k].shotId) ==>
      !IsSkipped(KeepLines(shots)[k]) && |Split(KeepLines(shots)[k])| == 5
  {
    KeepLinesFields(shots);
    forall k | 0 <= k < |shots| && IsToken(shots[k].shotId)
      ensures !IsSkipped(KeepLines(shots)[k]) && |Split(KeepLines(shots)[k])| == 5
    {
      SplitEmptyIffBlank(KeepLines(shots)[k]);
    }
  }

  /** Every line of the overlay header is blank or a comment. */
  lemma HeaderSkipped(uri: string, modelName: string)
    ensures forall k :: 0 <= k < |OverlayHeader(uri, modelName)| ==> IsSkipped(OverlayHeader(uri, modelName)[k])
  {
    var h := OverlayHeader(uri, modelName);
    HeaderLines(uri, modelName);
    forall k | 0 <= k < |h|
      ensures IsSkipped(h[k])
    {
      if h[k] == "" {
        assert AllSpace(h[k]);
      }
    }
  }

  /** Each header line is empty or starts with `#`. */
  lemma HeaderLines(uri: string, modelName: string)
    ensures forall k :: 0 <= k < |OverlayHeader(uri, modelName)| ==>
      OverlayHeader(uri, modelName)[k] == "" || OverlayHeader(uri, modelName)[k][0] == '#'
  {
    var texts := HeaderTexts(uri, modelName);
    var h := OverlayHeader(uri, modelName);
    forall k | 0 <= k < |h|
      ensures h[k] == "" || h[k][0] == '#'
    {
      assert h[k] == HeaderLine(texts[k]);
    }
  }

  /** The `keep` line of shot `k` emits it and moves to the next. */
  lemma KeepStep(shots: seq<Shot>, parseNum: string -> Option<Pts>, k: nat)
    requires k < |shots| && IsToken(shots[k].shotId)
    ensures Step(shots, parseNum, Engine(k, shots[..k], false), KeepLines(shots)[k]) ==
      Ok(Engine(k + 1, shots[..k + 1], false))
  {
    assert shots[..k] + [shots[k]] == shots[..k + 1];
    var line := KeepLines(shots)[k];
    OverlayLineFields(shots[k]);
    SplitEmptyIffBlank(line);
    StepRead(shots, parseNum, Engine(k, shots[..k], false), line);
  }

  /** From shot `k` on, the `keep` lines re-emit the remaining shots. */
  lemma {:induction false} KeepLinesRun(shots: seq<Shot>, parseNum: string -> Option<Pts>, k: nat)
    requires k <= |shots|
    requires forall j :: 0 <= j < |shots| ==> IsToken(shots[j].shotId)
    ensures Run(shots, parseNum, Engine(k, shots[..k], false), KeepLines(shots)[k..]) ==
      Ok(Engine(|shots|, shots, false))
    decreases |shots| - k
  {
    var lines := KeepLines(shots);
    if k == |shots| {
      assert lines[k..] == [];
      assert shots[..k] == shots;
    } else {
      var st := Engine(k, shots[..k], false);
      var next := Engine(k + 1, shots[..k + 1], false);
      KeepStep(shots, parseNum, k);
      RunNext(shots, parseNum, st, lines, k, next);
      KeepLinesRun(shots, parseNum, k + 1);
    }
  }

  /** All-keep round trip: the overlay written for a shot list whose ids hold
      no whitespace, reconciled unedited, gives back exactly that list. */
  lemma AllKeepRoundTrip(shots: seq<Shot>, parseNum: string -> Option<Pts>, uri: string, modelName: string)
    requires forall j :: 0 <= j < |shots| ==> IsToken(shots[j].shotId)
    ensures Reconcile(shots, parseNum, OverlayFile(uri, modelName, shots)) == Ok(shots)
  {
    var header := OverlayHeader(uri, modelName);
    HeaderSkipped(uri, modelName);
    RunConcat(shots, parseNum, Start, header, KeepLines(shots));
    RunSkipsAll(shots, parseNum, Start, header);
    assert KeepLines(shots)[0..] == KeepLines(shots);
    assert shots[..0] == [];
    KeepLinesRun(shots, parseNum, 0);
  }

  // ---------------------------------------------------------------------
  // Contiguity

  /** How many original shots the output accounts for: a pending mergedown
      has passed over one it has not emitted yet. */
  function Frontier(st: Engine): int {
    if st.mergedown then st.ptr - 1 else st.ptr
  }

  /** The output covers the first `Frontier(st)` original shots without a
      gap: it is empty exactly when none are covered, and otherwise it is
      contiguous, starts where the original starts and ends where the last
      covered shot ends. A pending mergedown has a next shot to absorb into. */
  ghost predicate Covers(original: seq<Shot>, st: Engine) {
    (st.mergedown ==> 1 <= st.ptr < |original|) &&
    0 <= Frontier(st) <= |original| &&
    (st.shots == [] <==> Frontier(st) == 0) &&
    (st.shots != [] ==>
       Contiguous(st.shots) &&
       st.shots[0].startPts == original[0].startPts &&
       st.shots[|st.shots| - 1].endPts == original[Frontier(st) - 1].endPts)
  }

  /** A line limited to `keep`, `mergeup` and `mergedown`, if it is read. */
  predicate MergesOnly(line: string) {
    IsSkipped(line) || |Split(line)| != 5 || Split(line)[0] in Merging
  }

  lemma ContiguousAppend(s: seq<Shot>, x: Shot)
    requires Contiguous(s) && (s != [] ==> s[|s| - 1].endPts == x.startPts)
    ensures Contiguous(s + [x])
  {
    var t := s + [x];
    forall i | 0 <= i < |t| - 1
      ensures t[i].endPts == t[i + 1].startPts
    {
      if i < |s| - 1 {
        assert t[i] == s[i] && t[i + 1] == s[i + 1];
      }
    }
  }

  lemma ContiguousSetLastEnd(s: seq<Shot>, e: Pts)
    requires Contiguous(s) && s != []
    ensures Contiguous(s[..|s| - 1] + [s[|s| - 1].(endPts := e)])
  {
    var t := s[..|s| - 1] + [s[|s| - 1].(endPts := e)];
    forall i | 0 <= i < |t| - 1
      ensures t[i].endPts == t[i + 1].startPts
    {
      assert t[i] == s[i];
      if i + 1 < |s| - 1 {
        assert t[i + 1] == s[i + 1];
      }
    }
  }

  /** Resolving a pending mergedown keeps the coverage. */
  lemma AbsorbCovers(original: seq<Shot>, st: Engine)
    requires Contiguous(original) && Covers(original, st) && st.mergedown
    requires Absorb(original, st).Ok?
    ensures Covers(original, Absorb(original, st).value)
    ensures Absorb(original, st).value.ptr == st.ptr + 1
  {
    var p := st.ptr;
    var shot := original[p].(startPts := original[p - 1].startPts);
    assert Absorb(original, st).value == Engine(p + 1, st.shots + [shot], false);
    if st.shots != [] {
      assert original[p - 2].endPts == original[p - 1].startPts;
    }
    ContiguousAppend(st.shots, shot);
  }

  /** `keep`, `mergeup` and `mergedown` keep the coverage. */
  lemma ApplyCovers(original: seq<Shot>, parseNum: string -> Option<Pts>, st: Engine,
                    action: string, shotId: string, start: string, end: string)
    requires Contiguous(original) && Covers(original, st) && !st.mergedown && action in Merging
    requires Apply(original, parseNum, st, action, shotId, start, end).Ok?
    ensures Covers(original, Apply(original, parseNum, st, action, shotId, start, end).value)
    ensures Apply(original, parseNum, st, action, shotId, start, end).value.ptr == st.ptr + 1
  {
    var next := Apply(original, parseNum, st, action, shotId, start, end).value;
    var p := st.ptr;
    if action == "keep" {
      assert p < |original|;
      assert next == Engine(p + 1, st.shots + [original[p]], false);
      if st.shots != [] {
        assert original[p - 1].endPts == original[p].startPts;
      }
      ContiguousAppend(st.shots, original[p]);
    } else if action == "mergeup" {
      var n := |st.shots|;
      assert n > 0 && p < |original|;
      assert next == Engine(p + 1, st.shots[..n - 1] + [st.shots[n - 1].(endPts := original[p].endPts)], false);
      ContiguousSetLastEnd(st.shots, original[p].endPts);
    } else {
      assert next == Engine(p + 1, st.shots, true);
    }
  }

  /** One line read from a merges-only overlay keeps the coverage and moves
      the cursor by one. */
  lemma StepCovers(original: seq<Shot>, parseNum: string -> Option<Pts>, st: Engine, line: string)
    requires Contiguous(original) && Covers(original, st) && MergesOnly(line)
    requires Step(original, parseNum, st, line).Ok?
    ensures Covers(original, Step(original, parseNum, st, line).value)
    ensures Step(original, parseNum, st, line).value.ptr == st.ptr + (if IsSkipped(line) then 0 else 1)
  {
    if !IsSkipped(line) {
      var tokens := Split(line);
      assert |tokens| == 5;
      StepRead(original, parseNum, st, line);
      if st.mergedown {
        AbsorbCovers(original, st);
      } else {
        ApplyCovers(original, parseNum, st, tokens[0], tokens[1], tokens[2], tokens[4]);
      }
    }
  }

  /** A successful pass over a merges-only overlay keeps the coverage, and
      its cursor ends advanced by the number of lines read. */
  lemma {:induction false} RunCovers(original: seq<Shot>, parseNum: string -> Option<Pts>, st: Engine, lines: seq<string>)
    requires Contiguous(original) && Covers(original, st)
    requires forall k :: 0 <= k < |lines| ==> MergesOnly(lines[k])
    requires Run(original, parseNum, st, lines).Ok?
    ensures Covers(original, Run(original, parseNum, st, lines).value)
    ensures Run(original, parseNum, st, lines).value.ptr == st.ptr + ProcessedCount(lines)
    decreases |lines|
  {
    if lines != [] {
      assert MergesOnly(lines[0]);
      StepCovers(original, parseNum, st, lines[0]);
      var next := Step(original, parseNum, st, lines[0]).value;
      RunCovers(original, parseNum, next, lines[1..]);
    }
  }

  /** Contiguity: over a contiguous original, an overlay using only `keep`,
      `mergeup` and `mergedown` that reconciles yields a contiguous list
      starting where the original starts, reads at most one line per
      original shot, and with exactly one line per shot spans the original
      from its first start to its last end. */
  lemma ContiguityPreserved(original: seq<Shot>, parseNum: string -> Option<Pts>, lines: seq<string>)
    requires Contiguous(original)
    requires forall k :: 0 <= k < |lines| ==> MergesOnly(lines[k])
    requires Reconcile(original, parseNum, lines).Ok?
    ensures var out := Reconcile(original, parseNum, lines).value;
      Contiguous(out) && (out != [] ==> |original| > 0 && out[0].startPts == original[0].startPts)
    ensures ProcessedCount(lines) <= |original|
    ensures ProcessedCount(lines) == |original| > 0 ==>
      var out := Reconcile(original, parseNum, lines).value;
      out != [] && out[0].startPts == original[0].startPts &&
      out[|out| - 1].endPts == original[|original| - 1].endPts
  {
    assert Covers(original, Start);
    RunCovers(original, parseNum, Start, lines);
  }
}

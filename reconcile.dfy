/** The overlay reconciliation engine of the `correct` action: one pass over
    the lines of an edited overlay file that rebuilds the shot list from the
    original detection's shots. */
module Correction {
  import opened Wrappers
  import opened PyText
  import opened Shots

  /** Every way the pass can stop. The source prints a message and exits
      with status 1, or lets a Python exception escape. */
  datatype Error =
    | MalformedLine(line: string)       // unpacking `line.split()` into five names fails
    | UnknownAction(action: string)     // the action token is none of the six
    | MergeUpToNothing                  // `mergeup` with nothing emitted yet
    | MergeDownToNothing                // `mergedown` on the last original shot
    | ShotIndexOutOfRange(index: int)   // an `IndexError` on the original shot list
    | NotANumber(token: string)         // `float()` rejects a timestamp token

  datatype Result<T> = Ok(value: T) | Err(error: Error)

  /** The loop's state: the cursor `ptr` into the original shots, the shots
      emitted so far, and the deferred `mergedown` flag. */
  datatype Engine = Engine(ptr: nat, shots: seq<Shot>, mergedown: bool)

  const Start := Engine(0, [], false)

  /** The six action tokens the engine understands. */
  const Actions: set<string> := {"keep", "edit", "add", "mergeup", "mergedown", "delete"}

  /** A line the pass ignores: blank after stripping, or starting (in its
      first raw character) with `#`. */
  predicate IsSkipped(line: string) {
    |Strip(line)| == 0 || line[0] == '#'
  }

  /** A mergedown was deferred: the current line, whatever its action, emits
      the current original shot stretched back to the start of the absorbed
      one before it. */
  function Absorb(original: seq<Shot>, st: Engine): Result<Engine> {
    match PyIndex(original, st.ptr)
    case None => Err(ShotIndexOutOfRange(st.ptr))
    case Some(cur) =>
      match PyIndex(original, st.ptr as int - 1)
      case None => Err(ShotIndexOutOfRange(st.ptr as int - 1))
      case Some(prev) =>
        Ok(Engine(st.ptr + 1, st.shots + [cur.(startPts := prev.startPts)], false))
  }

  /** A shot built from the literal fields of an `edit` or `add` line;
      `parseNum` stands for Python's `float()` on a timestamp token. */
  function Literal(parseNum: string -> Option<Pts>, shotId: string, start: string, end: string): Result<Shot> {
    match parseNum(start)
    case None => Err(NotANumber(start))
    case Some(s) =>
      match parseNum(end)
      case None => Err(NotANumber(end))
      case Some(e) => Ok(Shot(shotId, s, e))
  }

  /** One action applied to the state, when no mergedown is pending. */
  function Apply(original: seq<Shot>, parseNum: string -> Option<Pts>, st: Engine,
                 action: string, shotId: string, start: string, end: string): Result<Engine>
  {
    if action == "keep" then
      match PyIndex(original, st.ptr)
      case None => Err(ShotIndexOutOfRange(st.ptr))
      case Some(cur) => Ok(Engine(st.ptr + 1, st.shots + [cur], false))
    else if action == "edit" then
      match Literal(parseNum, shotId, start, end)
      case Err(e) => Err(e)
      case Ok(shot) => Ok(Engine(st.ptr + 1, st.shots + [shot], false))
    else if action == "add" then
      match Literal(parseNum, shotId, start, end)
      case Err(e) => Err(e)
      case Ok(shot) => Ok(Engine(st.ptr, st.shots + [shot], false))
    else if action == "mergeup" then
      if |st.shots| == 0 then Err(MergeUpToNothing)
      else
        match PyIndex(original, st.ptr)
        case None => Err(ShotIndexOutOfRange(st.ptr))
        case Some(cur) =>
          var last := st.shots[|st.shots| - 1];
          Ok(Engine(st.ptr + 1, st.shots[..|st.shots| - 1] + [last.(endPts := cur.endPts)], false))
    else if action == "mergedown" then
      if PyIndex(original, st.ptr + 1).None? then Err(MergeDownToNothing)
      else Ok(Engine(st.ptr + 1, st.shots, true))
    else if action == "delete" then
      Ok(Engine(st.ptr + 1, st.shots, false))
    else
      Err(UnknownAction(action))
  }

  /** One overlay line processed against the state. */
  function Step(original: seq<Shot>, parseNum: string -> Option<Pts>, st: Engine, line: string): Result<Engine> {
    if IsSkipped(line) then Ok(st)
    else
      var tokens := Split(line);
      if |tokens| != 5 then Err(MalformedLine(line))
      else if st.mergedown then Absorb(original, st)
      else Apply(original, parseNum, st, tokens[0], tokens[1], tokens[2], tokens[4])
  }

  /** The lines processed left to right; the first error stops the pass. */
  function Run(original: seq<Shot>, parseNum: string -> Option<Pts>, st: Engine, lines: seq<string>): Result<Engine>
    decreases |lines|
  {
    if lines == [] then Ok(st)
    else
      match Step(original, parseNum, st, lines[0])
      case Err(e) => Err(e)
      case Ok(next) => Run(original, parseNum, next, lines[1..])
  }

  /** The corrected shot list, or the error that stops the pass. */
  function Reconcile(original: seq<Shot>, parseNum: string -> Option<Pts>, lines: seq<string>): Result<seq<Shot>> {
    match Run(original, parseNum, Start, lines)
    case Err(e) => Err(e)
    case Ok(st) => Ok(st.shots)
  }

  /** A line that succeeds hands its new state to the rest of the lines. */
  lemma RunNext(original: seq<Shot>, parseNum: string -> Option<Pts>, st: Engine, lines: seq<string>, i: nat, next: Engine)
    requires i < |lines| && Step(original, parseNum, st, lines[i]) == Ok(next)
    ensures Run(original, parseNum, st, lines[i..]) == Run(original, parseNum, next, lines[i + 1..])
  {
    assert lines[i..][0] == lines[i];
    assert lines[i..][1..] == lines[i + 1..];
  }

  /** A line that fails ends the pass with its error. */
  lemma RunStops(original: seq<Shot>, parseNum: string -> Option<Pts>, st: Engine, lines: seq<string>, i: nat, e: Error)
    requires i < |lines| && Step(original, parseNum, st, lines[i]) == Err(e)
    ensures Run(original, parseNum, st, lines[i..]) == Err(e)
  {
    assert lines[i..][0] == lines[i];
  }

  /** The `if mergedown:` block of the loop: the line after a `mergedown`
      emits the current original shot with the absorbed shot's start. */
  method TakeMergedDown(original: seq<Shot>, ptr0: nat, shots0: seq<Shot>) returns (r: Result<Engine>)
    ensures r == Absorb(original, Engine(ptr0, shots0, true))
  {
    var ptr, shots := ptr0, shots0;
    var cur := PyIndex(original, ptr);
    if cur.None? {
      return Err(ShotIndexOutOfRange(ptr));
    }
    var prev := PyIndex(original, ptr as int - 1);
    if prev.None? {
      return Err(ShotIndexOutOfRange(ptr as int - 1));
    }
    shots := shots + [cur.value.(startPts := prev.value.startPts)];
    ptr := ptr + 1;
    return Ok(Engine(ptr, shots, false));
  }

  /** The `match action` statement of the loop: the new cursor, output and
      flag before the shared `ptr += 1`, or the error that ends the pass. */
  method ApplyAction(original: seq<Shot>, parseNum: string -> Option<Pts>, ptr0: nat, shots0: seq<Shot>,
                     action: string, shotId: string, startPts: string, endPts: string)
    returns (r: Result<Engine>)
    ensures r == Apply(original, parseNum, Engine(ptr0, shots0, false), action, shotId, startPts, endPts)
  {
    var ptr: int, shots, mergedown := ptr0, shots0, false;
    if action == "keep" {
      var cur := PyIndex(original, ptr);
      if cur.None? {
        return Err(ShotIndexOutOfRange(ptr));
      }
      shots := shots + [cur.value];
    } else if action == "edit" {
      var s := parseNum(startPts);
      if s.None? {
        return Err(NotANumber(startPts));
      }
      var e := parseNum(endPts);
      if e.None? {
        return Err(NotANumber(endPts));
      }
      shots := shots + [Shot(shotId, s.value, e.value)];
    } else if action == "add" {
      var s := parseNum(startPts);
      if s.None? {
        return Err(NotANumber(startPts));
      }
      var e := parseNum(endPts);
      if e.None? {
        return Err(NotANumber(endPts));
      }
      shots := shots + [Shot(shotId, s.value, e.value)];
      ptr := ptr - 1;
    } else if action == "mergeup" {
      if |shots| == 0 {
        return Err(MergeUpToNothing);
      }
      var cur := PyIndex(original, ptr);
      if cur.None? {
        return Err(ShotIndexOutOfRange(ptr));
      }
      shots := shots[..|shots| - 1] + [shots[|shots| - 1].(endPts := cur.value.endPts)];
    } else if action == "mergedown" {
      if PyIndex(original, ptr + 1).None? {
        return Err(MergeDownToNothing);
      }
      mergedown := true;
    } else if action == "delete" {
    } else {
      return Err(UnknownAction(action));
    }
    ptr := ptr + 1;
    return Ok(Engine(ptr, shots, mergedown));
  }

  /** The reconciliation loop as the tool runs it: a cursor, an output list
      whose last element `mergeup` rewrites, and the deferred-merge flag. */
  method Correct(original: seq<Shot>, parseNum: string -> Option<Pts>, lines: seq<string>)
    returns (r: Result<seq<Shot>>)
    ensures r == Reconcile(original, parseNum, lines)
  {
    var shots: seq<Shot> := [];
    var ptr: nat := 0;
    var mergedown := false;
    assert lines[0..] == lines;
    assert Engine(ptr, shots, mergedown) == Start;
    for i := 0 to |lines|
      invariant Run(original, parseNum, Start, lines)
             == Run(original, parseNum, Engine(ptr, shots, mergedown), lines[i..])
    {
      ghost var st := Engine(ptr, shots, mergedown);
      var line := lines[i];
      if |Strip(line)| == 0 {
        assert Step(original, parseNum, st, line) == Ok(st);
        RunNext(original, parseNum, st, lines, i, st);
        continue;
      }
      if line[0] == '#' {
        assert Step(original, parseNum, st, line) == Ok(st);
        RunNext(original, parseNum, st, lines, i, st);
        continue;
      }
      var tokens := Split(line);
      if |tokens| != 5 {
        RunStops(original, parseNum, st, lines, i, MalformedLine(line));
        return Err(MalformedLine(line));
      }
      var action, shotId, startPts, endPts := tokens[0], tokens[1], tokens[2], tokens[4];

      if mergedown {
        assert Step(original, parseNum, st, line) == Absorb(original, st);
        var next := TakeMergedDown(original, ptr, shots);
        if next.Err? {
          RunStops(original, parseNum, st, lines, i, next.error);
          return Err(next.error);
        }
        ptr, shots, mergedown := next.value.ptr, next.value.shots, next.value.mergedown;
        assert Engine(ptr, shots, mergedown) == next.value;
        RunNext(original, parseNum, st, lines, i, next.value);
        continue;
      }

      assert Step(original, parseNum, st, line) == Apply(original, parseNum, st, action, shotId, startPts, endPts);
      var next := ApplyAction(original, parseNum, ptr, shots, action, shotId, startPts, endPts);
      if next.Err? {
        RunStops(original, parseNum, st, lines, i, next.error);
        return Err(next.error);
      }
      ptr, shots, mergedown := next.value.ptr, next.value.shots, next.value.mergedown;
      assert Engine(ptr, shots, mergedown) == next.value;
      RunNext(original, parseNum, st, lines, i, next.value);
    }
    assert lines[|lines|..] == [];
    return Ok(shots);
  }
}

/** Concurrent `commit_files_with_retry` calls racing on one catalog row. */
module CatalogCommit {
  import opened Prelude

  /** Where one call stands. `Loaded` remembers the table version it read; `GaveUp` the version
      at which its last attempt was refused. `Failed` is any other exception; `landed` when the
      commit had been made and only the answer was lost. */
  datatype Phase = Trying | Loaded(version: nat) | Returned | GaveUp(version: nat) | Failed(landed: bool)

  /** One call: the table version when it began and, per conflict, the version it had loaded. */
  datatype Call<F> = Call(files: seq<F>, maxAttempts: int, began: nat, conflicts: seq<nat>, phase: Phase)

  /** The table's file list, the calls in the order they committed, and all calls ever made.
      The version of the metadata row is the number of commits. */
  datatype Table<F> = Table(files: seq<F>, log: seq<nat>, calls: seq<Call<F>>)

  datatype Step<F> =
    | Open(files: seq<F>, maxAttempts: int)
    | Load(call: nat)
    | AddFiles(call: nat)
    | AddFilesUnseen(call: nat)      // the swap succeeds, the caller sees an exception
    | Abort(call: nat)               // an exception before any swap

  /** The call's files are in the table (if it has any). */
  predicate Landed(phase: Phase) {
    phase.Returned? || (phase.Failed? && phase.landed)
  }

  predicate Active<F>(t: Table<F>, call: nat) {
    call < |t.calls| && (t.calls[call].phase.Trying? || t.calls[call].phase.Loaded?)
  }

  predicate Enabled<F>(t: Table<F>, step: Step<F>) {
    match step
    case Open(_, _) => true
    case Load(c) => c < |t.calls| && t.calls[c].phase.Trying?
    case AddFiles(c) => c < |t.calls| && t.calls[c].phase.Loaded?
    case AddFilesUnseen(c) => c < |t.calls| && t.calls[c].phase == Loaded(|t.log|)
    case Abort(c) => Active(t, c)
  }

  function WithPhase<F>(t: Table<F>, call: nat, phase: Phase): Table<F>
    requires call < |t.calls|
  {
    t.(calls := t.calls[call := t.calls[call].(phase := phase)])
  }

  /** The successful swap. */
  function Committed<F>(t: Table<F>, call: nat, phase: Phase): Table<F>
    requires call < |t.calls|
  {
    WithPhase(t, call, phase).(files := t.files + t.calls[call].files, log := t.log + [call])
  }

  function Apply<F>(t: Table<F>, step: Step<F>): Table<F>
    requires Enabled(t, step)
  {
    match step
    case Open(files, maxAttempts) =>
      var phase := if files == [] then Returned else if maxAttempts <= 0 then GaveUp(|t.log|) else Trying;
      t.(calls := t.calls + [Call(files, maxAttempts, |t.log|, [], phase)])
    case Load(c) => WithPhase(t, c, Loaded(|t.log|))
    case AddFiles(c) =>
      var call := t.calls[c];
      if call.phase.version == |t.log| then
        Committed(t, c, Returned)
      else
        var conflicts := call.conflicts + [call.phase.version];
        var phase := if |conflicts| >= call.maxAttempts then GaveUp(|t.log|) else Trying;
        t.(calls := t.calls[c := call.(conflicts := conflicts, phase := phase)])
    case AddFilesUnseen(c) => Committed(t, c, Failed(true))
    case Abort(c) => WithPhase(t, c, Failed(false))
  }

  ghost predicate Possible<F(!new)>(t: Table<F>, steps: seq<Step<F>>)
    decreases |steps|
  {
    steps != [] ==> Enabled(t, steps[0]) && Possible(Apply(t, steps[0]), steps[1..])
  }

  ghost function Run<F(!new)>(t: Table<F>, steps: seq<Step<F>>): Table<F>
    requires Possible(t, steps)
    decreases |steps|
  {
    if steps == [] then t else Run(Apply(t, steps[0]), steps[1..])
  }

  // ---------------------------------------------------------------- invariant

  /** The file lists of the logged calls, in commit order. */
  function Logged<F>(calls: seq<Call<F>>, log: seq<nat>): seq<F>
    requires forall c :: c in log ==> c < |calls|
  {
    if log == [] then []
    else
      var n := |log| - 1;
      assert log[n] in log && forall c :: c in log[..n] ==> c in log;
      Logged(calls, log[..n]) + calls[log[n]].files
  }

  ghost predicate Increasing(s: seq<nat>) {
    forall i, j :: 0 <= i < j < |s| ==> s[i] < s[j]
  }

  ghost predicate NoRepeats(s: seq<nat>) {
    forall i, j :: 0 <= i < j < |s| ==> s[i] != s[j]
  }

  /** Every conflict of call `c` is charged to its own commit, made by another call after `c`
      began and before version `end`. */
  ghost predicate Charged<F>(t: Table<F>, c: nat, end: nat)
    requires c < |t.calls|
  {
    var call := t.calls[c];
    && Increasing(call.conflicts)
    && (forall v :: v in call.conflicts ==> call.began <= v < end && v < |t.log| && t.log[v] != c)
  }

  ghost predicate CallInv<F>(t: Table<F>, c: nat)
    requires c < |t.calls|
  {
    var call := t.calls[c];
    && call.began <= |t.log|
    && (c in t.log <==> Landed(call.phase) && call.files != [])
    && match call.phase
       case Trying => Charged(t, c, |t.log|) && |call.conflicts| < call.maxAttempts && call.files != []
       case Loaded(v) => call.began <= v <= |t.log| && Charged(t, c, v) && |call.conflicts| < call.maxAttempts && call.files != []
       case GaveUp(v) => call.began <= v <= |t.log| && Charged(t, c, v) && |call.conflicts| == Max(0, call.maxAttempts) && call.files != []
       case _ => true
  }

  ghost predicate Inv<F(!new)>(base: seq<F>, t: Table<F>) {
    && (forall c :: c in t.log ==> c < |t.calls|)
    && NoRepeats(t.log)
    && t.files == base + Logged(t.calls, t.log)
    && (forall c :: 0 <= c < |t.calls| ==> CallInv(t, c))
  }

  lemma {:induction false} LoggedFrame<F>(a: seq<Call<F>>, b: seq<Call<F>>, log: seq<nat>)
    requires forall c :: c in log ==> c < |a| && c < |b| && a[c].files == b[c].files
    ensures Logged(a, log) == Logged(b, log)
  {
    if log != [] {
      var n := |log| - 1;
      assert log[n] in log && forall c :: c in log[..n] ==> c in log;
      LoggedFrame(a, b, log[..n]);
    }
  }

  lemma LoggedSnoc<F>(calls: seq<Call<F>>, log: seq<nat>, c: nat)
    requires (forall d :: d in log ==> d < |calls|) && c < |calls|
    ensures forall d :: d in log + [c] ==> d < |calls|
    ensures Logged(calls, log + [c]) == Logged(calls, log) + calls[c].files
  {
    assert (log + [c])[..|log|] == log;
  }

  /** A step that leaves log and other calls alone keeps the other calls' invariants. */
  lemma CallFrame<F>(t: Table<F>, u: Table<F>, c: nat)
    requires c < |t.calls| && c < |u.calls| && u.calls[c] == t.calls[c]
    requires CallInv(t, c)
    requires t.log <= u.log
    requires c in u.log ==> c in t.log
    ensures CallInv(u, c)
  {
    assert c in t.log ==> c in u.log;
    assert forall v :: 0 <= v < |t.log| ==> u.log[v] == t.log[v];
  }

  lemma CommitKeepsInv<F(!new)>(base: seq<F>, t: Table<F>, c: nat, phase: Phase)
    requires Inv(base, t) && c < |t.calls| && t.calls[c].phase == Loaded(|t.log|)
    requires phase == Returned || phase == Failed(true)
    ensures Inv(base, Committed(t, c, phase))
  {
    var u := Committed(t, c, phase);
    assert CallInv(t, c);
    assert c !in t.log;
    LoggedFrame(t.calls, u.calls, t.log);
    LoggedSnoc(u.calls, t.log, c);
    assert u.files == base + (Logged(t.calls, t.log) + t.calls[c].files);
    CommittedCalls(t, u, c);
  }

  lemma CommittedCalls<F>(t: Table<F>, u: Table<F>, c: nat)
    requires c < |t.calls| && c !in t.log && CallInv(t, c) && t.calls[c].phase.Loaded? && t.calls[c].phase.version == |t.log|
    requires forall d :: 0 <= d < |t.calls| ==> CallInv(t, d)
    requires u.log == t.log + [c] && |u.calls| == |t.calls| && forall d :: 0 <= d < |t.calls| && d != c ==> u.calls[d] == t.calls[d]
    requires Landed(u.calls[c].phase) && u.calls[c] == t.calls[c].(phase := u.calls[c].phase)
    ensures forall d :: 0 <= d < |u.calls| ==> CallInv(u, d)
  {
    hide Charged;
    assert u.log[..|t.log|] == t.log && u.log[|t.log|] == c;
    forall d | 0 <= d < |u.calls|
      ensures CallInv(u, d)
    {
      if d != c {
        CallFrame(t, u, d);
      }
    }
  }

  lemma IncreasingSnoc(s: seq<nat>, x: nat)
    requires Increasing(s) && forall v :: v in s ==> v < x
    ensures Increasing(s + [x])
  {
    forall i, j | 0 <= i < j < |s + [x]|
      ensures (s + [x])[i] < (s + [x])[j]
    {
      assert s[i] in s;
    }
  }

  lemma ConflictKeepsInv<F(!new)>(base: seq<F>, t: Table<F>, c: nat)
    requires Inv(base, t) && Enabled(t, AddFiles(c)) && t.calls[c].phase.version != |t.log|
    ensures Inv(base, Apply(t, AddFiles(c)))
  {
    var u := Apply(t, AddFiles(c));
    var v := t.calls[c].phase.version;
    assert CallInv(t, c);
    assert t.log[v] in t.log;
    IncreasingSnoc(t.calls[c].conflicts, v);
    LoggedFrame(t.calls, u.calls, t.log);
    forall d | 0 <= d < |u.calls|
      ensures CallInv(u, d)
    {
      if d != c {
        CallFrame(t, u, d);
      }
    }
  }

  lemma StepKeepsInv<F(!new)>(base: seq<F>, t: Table<F>, step: Step<F>)
    requires Inv(base, t) && Enabled(t, step)
    ensures Inv(base, Apply(t, step))
  {
    var u := Apply(t, step);
    if step.AddFilesUnseen? {
      CommitKeepsInv(base, t, step.call, Failed(true));
    } else if step.AddFiles? {
      if t.calls[step.call].phase.version == |t.log| {
        CommitKeepsInv(base, t, step.call, Returned);
      } else {
        ConflictKeepsInv(base, t, step.call);
      }
    } else {
      LoggedFrame(t.calls, u.calls, t.log);
      forall d | 0 <= d < |u.calls|
        ensures CallInv(u, d)
      {
        if d < |t.calls| && u.calls[d] == t.calls[d] {
          CallFrame(t, u, d);
        } else if d < |t.calls| {
          assert CallInv(t, d);
        }
      }
    }
  }

  lemma {:induction false} RunKeepsInv<F(!new)>(base: seq<F>, t: Table<F>, steps: seq<Step<F>>)
    requires Inv(base, t) && Possible(t, steps)
    ensures Inv(base, Run(t, steps))
    decreases |steps|
  {
    if steps != [] {
      StepKeepsInv(base, t, steps[0]);
      RunKeepsInv(base, Apply(t, steps[0]), steps[1..]);
    }
  }

  // ---------------------------------------------------------------- main results

  /** MAIN: in every interleaving the table is what it was, followed by the file lists of the
      calls that committed; a call that returns is among them exactly once, a call that gave up or
      is still running is not, a call that failed otherwise only if its swap went unseen. */
  lemma CommitsAreAtomicAppends<F(!new)>(base: seq<F>, steps: seq<Step<F>>)
    requires Possible(Table(base, [], []), steps)
    ensures var t := Run(Table(base, [], []), steps);
            && (forall c :: c in t.log ==> c < |t.calls|)
            && t.files == base + Logged(t.calls, t.log)
            && NoRepeats(t.log)
            && (forall c :: 0 <= c < |t.calls| && t.calls[c].files != [] ==> (c in t.log <==> Landed(t.calls[c].phase)))
  {
    RunKeepsInv(base, Table(base, [], []), steps);
    var t := Run(Table(base, [], []), steps);
    forall c | 0 <= c < |t.calls| && t.calls[c].files != []
      ensures c in t.log <==> Landed(t.calls[c].phase)
    {
      assert CallInv(t, c);
    }
  }

  lemma {:induction false} IncreasingSpan(s: seq<nat>, lo: nat, hi: nat)
    requires Increasing(s)
    requires forall v :: v in s ==> lo <= v < hi
    requires lo <= hi
    ensures |s| <= hi - lo
  {
    if s != [] {
      var n := |s| - 1;
      assert s[n] in s;
      forall v | v in s[..n]
        ensures lo <= v < s[n]
      {
        var i :| 0 <= i < n && s[i] == v;
        assert v in s;
      }
      IncreasingSpan(s[..n], lo, s[n]);
    }
  }

  /** MAIN: a call that gives up was refused exactly `maxAttempts` times, each time because of a
      different commit that another call made while this one ran. */
  lemma GivingUpNeedsContention<F(!new)>(base: seq<F>, steps: seq<Step<F>>, c: nat)
    requires Possible(Table(base, [], []), steps)
    requires c < |Run(Table(base, [], []), steps).calls|
    requires Run(Table(base, [], []), steps).calls[c].phase.GaveUp?
    ensures var t := Run(Table(base, [], []), steps);
            var call := t.calls[c];
            && |call.conflicts| == Max(0, call.maxAttempts)
            && Charged(t, c, call.phase.version)
            && call.phase.version - call.began >= call.maxAttempts
            && c !in t.log
  {
    RunKeepsInv(base, Table(base, [], []), steps);
    var t := Run(Table(base, [], []), steps);
    assert CallInv(t, c);
    IncreasingSpan(t.calls[c].conflicts, t.calls[c].began, t.calls[c].phase.version);
  }

  // ---------------------------------------------------------------- the call itself

  /** How a call ends: it returns, runs out of attempts, or passes another exception on. */
  datatype Result = Done | Exhausted | Broke(landed: bool)

  /** The catalog row of one table. */
  class Catalog<F> {
    var files: seq<F>
    var version: nat

    constructor ()
      ensures files == [] && version == 0
    {
      files, version := [], 0;
    }

    /** Another worker's commit. */
    method Land(commit: seq<F>)
      modifies this
      ensures files == old(files) + commit && version == old(version) + 1
    {
      files, version := files + commit, version + 1;
    }

    method LandAll(commits: seq<seq<F>>)
      modifies this
      ensures files == old(files) + Flatten(commits) && version == old(version) + |commits|
    {
      for i := 0 to |commits|
        invariant files == old(files) + Flatten(commits[..i]) && version == old(version) + i
      {
        assert commits[..i + 1] == commits[..i] + [commits[i]];
        FlattenSnoc(commits[..i], commits[i]);
        Land(commits[i]);
      }
      assert commits[..|commits|] == commits;
    }

    /** The optimistic compare-and-swap: refused unless `loaded` is still current. */
    method TryAddFiles(loaded: nat, uris: seq<F>) returns (ok: bool)
      modifies this
      ensures ok == (loaded == old(version))
      ensures files == (if ok then old(files) + uris else old(files))
      ensures version == (if ok then old(version) + 1 else old(version))
    {
      ok := loaded == version;
      if ok {
        files, version := files + uris, version + 1;
      }
    }

    /** One attempt: load, then commit; `before` lands ahead of the load, `between` after it. */
    method Attempt(uris: seq<F>, before: seq<seq<F>>, between: seq<seq<F>>) returns (ok: bool)
      modifies this
      ensures ok == (between == [])
      ensures files == old(files) + (Flatten(before) + Flatten(between)) + (if ok then uris else [])
    {
      LandAll(before);
      var loaded := version;
      LandAll(between);
      assert files == old(files) + (Flatten(before) + Flatten(between));
      ok := TryAddFiles(loaded, uris);
    }

    /** `commit_files_with_retry`; `others[i]` are the commits that other workers land before
        the load of attempt `i` and between that load and its commit. At attempt `breakAt` an
        exception other than a conflict comes up, with `unseen` after its swap succeeded. */
    method CommitFilesWithRetry(uris: seq<F>, maxAttempts: nat, others: seq<(seq<seq<F>>, seq<seq<F>>)>,
                                breakAt: Option<nat>, unseen: bool)
      returns (result: Result, conflicts: nat)
      requires |others| == maxAttempts
      modifies this
      ensures uris == [] ==> result.Done? && files == old(files)
      ensures conflicts <= maxAttempts && forall i :: 0 <= i < conflicts ==> others[i].1 != [] && breakAt != Some(i)
      ensures result.Done? <==> uris == [] || exists i :: 0 <= i < maxAttempts && Undisturbed(others, breakAt, i)
      ensures uris != [] ==>
                match result
                case Done =>
                  && conflicts < maxAttempts && breakAt != Some(conflicts) && others[conflicts].1 == []
                  && files == old(files) + Interference(others[..conflicts + 1]) + uris
                case Exhausted => conflicts == maxAttempts && files == old(files) + Interference(others)
                case Broke(landed) =>
                  && conflicts < maxAttempts && breakAt == Some(conflicts)
                  && landed == (unseen && others[conflicts].1 == [])
                  && files == old(files) + Interference(others[..conflicts + 1]) + (if landed then uris else [])
    {
      InterferenceNone(others);
      hide Interference, Flatten;
      result, conflicts := Done, 0;
      if uris == [] {
        return;
      }
      while conflicts < maxAttempts
        invariant 0 <= conflicts <= maxAttempts
        invariant files == old(files) + Interference(others[..conflicts])
        invariant forall i :: 0 <= i < conflicts ==> others[i].1 != [] && breakAt != Some(i)
        invariant forall i :: 0 <= i < conflicts ==> !Undisturbed(others, breakAt, i)
      {
        var round := others[conflicts];
        assert others[..conflicts + 1] == others[..conflicts] + [round];
        InterferenceSnoc(others[..conflicts], round);
        if breakAt == Some(conflicts) {
          forall i | conflicts <= i < |others|
            ensures !Undisturbed(others, breakAt, i)
          {}
          result := Broken(uris, round.0, round.1, unseen);
          return;
        }
        var ok := Attempt(uris, round.0, round.1);
        if ok {
          BreaksLater(breakAt, conflicts);
          assert Undisturbed(others, breakAt, conflicts);
          return;
        }
        conflicts := conflicts + 1;
      }
      assert others[..maxAttempts] == others;
      result := Exhausted;
    }

    /** An attempt that ends in another exception. */
    method Broken(uris: seq<F>, before: seq<seq<F>>, between: seq<seq<F>>, unseen: bool) returns (result: Result)
      modifies this
      ensures result == Broke(unseen && between == [])
      ensures files == old(files) + (Flatten(before) + Flatten(between)) + (if unseen && between == [] then uris else [])
    {
      if unseen {
        var landed := Attempt(uris, before, between);
        result := Broke(landed);
      } else {
        LandAll(before);
        LandAll(between);
        result := Broke(false);
      }
    }
  }

  /** No foreign commit falls between load and commit of attempt `i`, and nothing breaks the call up to it. */
  predicate Undisturbed<F>(others: seq<(seq<seq<F>>, seq<seq<F>>)>, breakAt: Option<nat>, i: int) {
    0 <= i < |others| && others[i].1 == [] && (breakAt.None? || i < breakAt.value)
  }

  lemma BreaksLater(breakAt: Option<nat>, n: nat)
    requires forall i: nat :: i <= n ==> breakAt != Some(i)
    ensures breakAt.None? || n < breakAt.value
  {
    assert breakAt.Some? ==> breakAt == Some(breakAt.value);
  }

  lemma InterferenceNone<F>(rounds: seq<(seq<seq<F>>, seq<seq<F>>)>)
    ensures Interference(rounds[..0]) == []
  {}

  lemma InterferenceSnoc<F>(rounds: seq<(seq<seq<F>>, seq<seq<F>>)>, r: (seq<seq<F>>, seq<seq<F>>))
    ensures Interference(rounds + [r]) == Interference(rounds) + (Flatten(r.0) + Flatten(r.1))
  {
    assert (rounds + [r])[..|rounds|] == rounds;
  }

  /** Everything the other workers appended in these rounds. */
  function Interference<F>(rounds: seq<(seq<seq<F>>, seq<seq<F>>)>): seq<F> {
    if rounds == [] then []
    else
      var n := |rounds| - 1;
      Interference(rounds[..n]) + (Flatten(rounds[n].0) + Flatten(rounds[n].1))
  }
}

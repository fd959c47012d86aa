/**
  The page daemons' vote on running the out-of-memory killer
  (asgn3/vm_pageout.c:1566-1614).  Each domain's own thread updates its private
  fields; the shared counter vm_pageout_oom_vote is changed by separate atomic
  operations, so a call of vm_pageout_mightbe_oom is up to four steps and the
  calls of different domains interleave.
 */
module OomVote {

  datatype PC =
    | Idle
    | Voting   // vmd_oom is set, atomic_fetchadd_int is next
    | Killing  // last of the quorum: vm_pageout_oom runs
    | Recall   // vmd_oom is clear, atomic_subtract_int is next

  /** `streak` exists only in the model: the number of scans in a row, up to the latest, that freed nothing. */
  datatype Domain = Domain(oomSeq: nat, oom: bool, pc: PC, streak: nat)

  datatype State = State(dom: seq<Domain>, vote: int)

  /** Whether the domain's vote is in the counter. */
  predicate Counted(d: Domain) {
    match d.pc
    case Idle => d.oom
    case Voting => false
    case Killing => true
    case Recall => true
  }

  /** The last scan of a domain ended: `failed` says that it had a target and freed nothing. */
  function ScanEnds(d: Domain, failed: bool, threshold: int): Domain {
    var oomSeq := if failed then d.oomSeq + 1 else 0;
    var d' := d.(oomSeq := oomSeq, streak := if failed then d.streak + 1 else 0);
    if oomSeq < threshold then
      if d.oom then d'.(oom := false, pc := Recall) else d'
    else if d.oom then d'.(oomSeq := 0)
    else d'.(oomSeq := 0, oom := true, pc := Voting)
  }

  predicate MayStep(s: State, i: nat) { i < |s.dom| }

  function Step(s: State, i: nat, failed: bool, threshold: int): State
    requires MayStep(s, i)
  {
    var d := s.dom[i];
    match d.pc
    case Idle => s.(dom := s.dom[i := ScanEnds(d, failed, threshold)])
    case Voting =>
      State(s.dom[i := d.(pc := if s.vote == |s.dom| - 1 then Killing else Idle)], s.vote + 1)
    case Killing => s.(dom := s.dom[i := d.(oom := false, pc := Recall)])
    case Recall => State(s.dom[i := d.(pc := Idle)], s.vote - 1)
  }

  ghost predicate Init(s: State) {
    s.vote == 0 && forall i | 0 <= i < |s.dom| :: s.dom[i] == Domain(0, false, Idle, 0)
  }

  ghost predicate Next(s: State, s': State, threshold: int) {
    exists k: nat, failed: bool :: MayStep(s, k) && s' == Step(s, k, failed, threshold)
  }

  ghost predicate IsRun(run: seq<State>, threshold: int) {
    && |run| > 0 && Init(run[0])
    && forall i, j | 0 <= i < j < |run| && j == i + 1 ::
         Next(run[i], run[j], threshold)
  }

  // ---- counting votes --------------------------------------------------------

  function Count(dom: seq<Domain>): (n: nat)
    ensures n <= |dom|
  {
    if dom == [] then 0
    else Count(dom[..|dom| - 1]) + if Counted(dom[|dom| - 1]) then 1 else 0
  }

  lemma {:induction false} CountUpdate(dom: seq<Domain>, i: nat, d: Domain)
    requires i < |dom|
    ensures Count(dom[i := d])
         == Count(dom) - (if Counted(dom[i]) then 1 else 0) + (if Counted(d) then 1 else 0)
  {
    var n := |dom| - 1;
    if i < n {
      CountUpdate(dom[..n], i, d);
      assert dom[i := d][..n] == dom[..n][i := d];
    } else {
      assert dom[i := d][..n] == dom[..n];
    }
  }

  lemma {:induction false} CountMissing(dom: seq<Domain>, i: nat, j: nat)
    requires i < j < |dom| && !Counted(dom[i]) && !Counted(dom[j])
    ensures Count(dom) <= |dom| - 2
  {
    var n := |dom| - 1;
    if j < n {
      CountMissing(dom[..n], i, j);
    } else {
      CountOneMissing(dom[..n], i);
    }
  }

  lemma {:induction false} CountOneMissing(dom: seq<Domain>, i: nat)
    requires i < |dom| && !Counted(dom[i])
    ensures Count(dom) < |dom|
  {
    if i < |dom| - 1 {
      CountOneMissing(dom[..|dom| - 1], i);
    }
  }

  lemma {:induction false} CountIsCard(dom: seq<Domain>)
    ensures Count(dom) == |set i | 0 <= i < |dom| && Counted(dom[i])|
  {
    if dom != [] {
      var n := |dom| - 1;
      CountIsCard(dom[..n]);
      var before := set i | 0 <= i < n && Counted(dom[..n][i]);
      var all := set i | 0 <= i < |dom| && Counted(dom[i]);
      assert all == before + (if Counted(dom[n]) then {n} else {});
    }
  }

  // ---- the invariant -----------------------------------------------------------

  ghost predicate DomainOk(d: Domain, threshold: int) {
    && d.oomSeq <= d.streak
    && (d.oom ==> d.streak >= threshold)
    && (d.pc == Voting || d.pc == Killing ==> d.oom)
    && (d.oom ==> d.oomSeq == 0)
    && (d.pc == Recall ==> !d.oom && (d.streak == 0 || d.streak >= threshold))
  }

  ghost predicate Inv(s: State, threshold: int) {
    && s.vote == Count(s.dom)
    && forall i | 0 <= i < |s.dom| :: DomainOk(s.dom[i], threshold)
  }

  lemma StepKeepsInv(s: State, i: nat, failed: bool, threshold: int)
    requires Inv(s, threshold) && MayStep(s, i)
    ensures Inv(Step(s, i, failed, threshold), threshold)
  {
    var s' := Step(s, i, failed, threshold);
    assert DomainOk(s.dom[i], threshold);
    CountUpdate(s.dom, i, s'.dom[i]);
    assert s'.dom == s.dom[i := s'.dom[i]];
  }

  lemma NextKeepsInv(s: State, s': State, threshold: int)
    requires Inv(s, threshold) && Next(s, s', threshold)
    ensures Inv(s', threshold)
  {
    var k: nat, failed: bool :| MayStep(s, k) && s' == Step(s, k, failed, threshold);
    StepKeepsInv(s, k, failed, threshold);
  }

  lemma {:induction false} InitInv(s: State, threshold: int)
    requires Init(s)
    ensures s.vote == Count(s.dom)
    decreases |s.dom|
  {
    if s.dom != [] {
      var n := |s.dom| - 1;
      InitInv(State(s.dom[..n], 0), threshold);
    }
  }

  lemma {:induction false} RunKeepsInv(run: seq<State>, i: nat, threshold: int)
    requires IsRun(run, threshold) && i < |run|
    ensures Inv(run[i], threshold)
  {
    if i == 0 {
      InitInv(run[0], threshold);
    } else {
      RunKeepsInv(run, i - 1, threshold);
      NextKeepsInv(run[i - 1], run[i], threshold);
    }
  }

  /** Between calls the counter is the number of domains whose vmd_oom is set; during calls it stays in range. */
  lemma VoteIsCount(run: seq<State>, i: nat, threshold: int)
    requires IsRun(run, threshold) && i < |run|
    ensures 0 <= run[i].vote <= |run[i].dom|
    ensures (forall k | 0 <= k < |run[i].dom| :: run[i].dom[k].pc == Idle)
            ==> run[i].vote == |set k | 0 <= k < |run[i].dom| && run[i].dom[k].oom|
  {
    RunKeepsInv(run, i, threshold);
    if forall k | 0 <= k < |run[i].dom| :: run[i].dom[k].pc == Idle {
      CountIsCard(run[i].dom);
      var dom := run[i].dom;
      assert (set k | 0 <= k < |dom| && Counted(dom[k])) == set k | 0 <= k < |dom| && dom[k].oom;
    }
  }

  /**
    The step that starts the killer: every domain has failed at least `threshold`
    scans in a row, except, exactly, those that have cleared vmd_oom after a scan
    that made progress and have yet to subtract their vote.
   */
  lemma KillerNeedsQuorum(run: seq<State>, i: nat, threshold: int, k: nat, failed: bool, e: nat)
    requires IsRun(run, threshold) && i < |run| && MayStep(run[i], k)
    requires run[i].dom[k].pc == Voting && Step(run[i], k, failed, threshold).dom[k].pc == Killing
    requires e < |run[i].dom|
    ensures run[i].dom[e].streak >= threshold || (run[i].dom[e].pc == Recall && run[i].dom[e].streak == 0)
    ensures threshold > 0 ==>
      (run[i].dom[e].streak < threshold <==> run[i].dom[e].pc == Recall && run[i].dom[e].streak == 0)
  {
    RunKeepsInv(run, i, threshold);
    var s := run[i];
    assert DomainOk(s.dom[e], threshold);
    if e != k && !Counted(s.dom[e]) {
      CountMissing(s.dom, if e < k then e else k, if e < k then k else e);
    }
  }

  /**
    Voting resets vmd_oom_seq, so a vote outlives the next scan only if that scan
    fails and the threshold is at most 1; above that, even a failed scan withdraws it.
   */
  lemma VoteLastsOneScan(run: seq<State>, i: nat, threshold: int, k: nat, failed: bool)
    requires IsRun(run, threshold) && i < |run| && MayStep(run[i], k)
    requires run[i].dom[k].pc == Idle && run[i].dom[k].oom
    ensures Step(run[i], k, failed, threshold).dom[k].pc == Recall <==> threshold > if failed then 1 else 0
    ensures Step(run[i], k, failed, threshold).dom[k].oom <==> threshold <= if failed then 1 else 0
  {
    RunKeepsInv(run, i, threshold);
    assert DomainOk(run[i].dom[k], threshold);
  }

  /**
    That exception is real.  Domain 0 fails twice and votes; its next scan frees
    pages, so it clears vmd_oom, but before its atomic_subtract_int domain 1
    completes the quorum: the killer runs although the latest scan of domain 0
    succeeded.
   */
  lemma KillerDespiteProgress() returns (run: seq<State>)
    ensures IsRun(run, 2)
    ensures var s := run[|run| - 1];
            |s.dom| == 2 && s.dom[1].pc == Killing && s.dom[0].streak == 0
  {
    var idle, voted := Domain(0, false, Idle, 0), Domain(0, true, Idle, 2);
    var late := Domain(0, false, Recall, 0);
    run := [State([idle, idle], 0)];
    run := Extend(run, 0, true, 2, State([Domain(1, false, Idle, 1), idle], 0));
    run := Extend(run, 0, true, 2, State([Domain(0, true, Voting, 2), idle], 0));
    run := Extend(run, 0, true, 2, State([voted, idle], 1));
    run := Extend(run, 0, false, 2, State([late, idle], 1));
    run := Extend(run, 1, true, 2, State([late, Domain(1, false, Idle, 1)], 1));
    run := Extend(run, 1, true, 2, State([late, Domain(0, true, Voting, 2)], 1));
    run := Extend(run, 1, true, 2, State([late, Domain(0, true, Killing, 2)], 2));
  }

  lemma Extend(run: seq<State>, k: nat, failed: bool, threshold: int, s': State) returns (run': seq<State>)
    requires IsRun(run, threshold) && MayStep(run[|run| - 1], k)
    requires s' == Step(run[|run| - 1], k, failed, threshold)
    ensures IsRun(run', threshold) && run'[|run'| - 1] == s'
  {
    run' := run + [s'];
  }

  /** On its way from the killer back to idle, the domain of the killer has cleared vmd_oom. */
  ghost predicate TakingBack(s: State, k: nat) {
    k < |s.dom| && (s.dom[k].pc == Killing || (s.dom[k].pc in {Recall, Idle} && !s.dom[k].oom))
  }

  lemma TakesBack(s: State, s': State, threshold: int, k: nat)
    requires Next(s, s', threshold) && TakingBack(s, k) && s.dom[k].pc != Idle
    ensures TakingBack(s', k)
  {
    var i: nat, failed: bool :| MayStep(s, i) && s' == Step(s, i, failed, threshold);
  }

  /** After the killer has run, its domain has taken back its vote when the call returns. */
  lemma {:induction false} KillerTakesBack(run: seq<State>, i: nat, j: nat, threshold: int, k: nat)
    requires IsRun(run, threshold) && i <= j < |run| && TakingBack(run[i], k)
    requires forall m | i <= m < j :: k < |run[m].dom| && run[m].dom[k].pc != Idle
    ensures TakingBack(run[j], k) && (run[j].dom[k].pc == Idle ==> !Counted(run[j].dom[k]))
    decreases j - i
  {
    if i < j {
      TakesBack(run[i], run[i + 1], threshold, k);
      KillerTakesBack(run, i + 1, j, threshold, k);
    }
  }
}

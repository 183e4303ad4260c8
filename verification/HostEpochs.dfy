/** Registration epochs: which connection a container's state belongs to. */
module HostEpochs {
  import opened HostForwarding
  import opened HostRuns

  /** Every epoch in use was taken from the counter, by one connection only. */
  ghost predicate EpochsUnique(s: Sys) {
    && (forall c | c in s.conns && !s.conns[c].Admitted? :: s.conns[c].registration < s.nextRegistration)
    && (forall c, c' | c in s.conns && c' in s.conns && !s.conns[c].Admitted? && !s.conns[c'].Admitted?
                       && s.conns[c].registration == s.conns[c'].registration :: c == c')
  }

  ghost predicate IsInserted(s: Sys, c: Id) {
    c in s.conns && s.conns[c].Inserted?
  }

  /** The state kept under c's container id is the state c inserted. */
  ghost predicate OwnsState(s: Sys, c: Id) {
    IsInserted(s, c) && s.host.Owns(s.conns[c].cid, s.conns[c].registration)
  }

  lemma StepKeepsEpochsUnique(s: Sys, step: Step)
    requires EpochsUnique(s) && Enabled(s, step)
    ensures EpochsUnique(Apply(s, step))
  {
  }

  lemma {:induction false} EpochsStayUnique(s: Sys, steps: seq<Step>)
    requires EpochsUnique(s) && IsRun(s, steps)
    ensures EpochsUnique(Run(s, steps))
    decreases |steps|
  {
    if steps != [] {
      StepKeepsEpochsUnique(s, steps[0]);
      EpochsStayUnique(Apply(s, steps[0]), steps[1..]);
    }
  }

  lemma StepRestoresNoOwnership(s: Sys, step: Step, c: Id)
    requires EpochsUnique(s) && Enabled(s, step) && IsInserted(s, c) && !OwnsState(s, c)
    ensures IsInserted(Apply(s, step), c) && !OwnsState(Apply(s, step), c)
  {
  }

  /** A connection that no longer owns its state never owns it again, whatever happens. */
  lemma {:induction false} OwnershipIsLostForGood(s: Sys, steps: seq<Step>, c: Id)
    requires EpochsUnique(s) && IsRun(s, steps)
    requires IsInserted(s, c) && !OwnsState(s, c)
    ensures IsInserted(Run(s, steps), c) && !OwnsState(Run(s, steps), c)
    decreases |steps|
  {
    if steps != [] {
      StepKeepsEpochsUnique(s, steps[0]);
      StepRestoresNoOwnership(s, steps[0], c);
      OwnershipIsLostForGood(Apply(s, steps[0]), steps[1..], c);
    }
  }

  lemma CleanupActsIffOwner(s: Sys, c: Id)
    requires Enabled(s, Disconnect(c))
    ensures Apply(s, Disconnect(c)) != s <==> OwnsState(s, c)
    ensures OwnsState(s, c) ==> s.conns[c].cid !in Apply(s, Disconnect(c)).host.containers
  {
  }

  /** Main result: the state of one registration is removed by cleanup at most once. */
  lemma CleanupHappensOnce(s: Sys, c: Id, later: seq<Step>)
    requires EpochsUnique(s) && Enabled(s, Disconnect(c))
    requires IsRun(Apply(s, Disconnect(c)), later)
    ensures var t := Run(Apply(s, Disconnect(c)), later);
      Enabled(t, Disconnect(c)) && Apply(t, Disconnect(c)) == t
  {
    CleanupActsIffOwner(s, c);
    StepKeepsEpochsUnique(s, Disconnect(c));
    OwnershipIsLostForGood(Apply(s, Disconnect(c)), later, c);
    CleanupActsIffOwner(Run(Apply(s, Disconnect(c)), later), c);
  }

  /** Main result: once another connection for the same container id has been admitted or inserted,
      the cleanup of the superseded connection changes nothing, however late it comes. */
  lemma SupersededCleanupIsIdle(s: Sys, c: Id, step: Step, later: seq<Step>)
    requires EpochsUnique(s) && IsInserted(s, c) && Enabled(s, step)
    requires match step
             case Admit(_, cid) => cid == s.conns[c].cid && AdmitRegistration(s.host, cid).1
             case Insert(c') => s.conns[c'].cid == s.conns[c].cid
             case _ => false
    requires IsRun(Apply(s, step), later)
    ensures var t := Run(Apply(s, step), later);
      Enabled(t, Disconnect(c)) && Apply(t, Disconnect(c)) == t
  {
    StepKeepsEpochsUnique(s, step);
    OwnershipIsLostForGood(Apply(s, step), later, c);
    CleanupActsIffOwner(Run(Apply(s, step), later), c);
  }
}

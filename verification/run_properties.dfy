/**
 * Properties of a whole scraper run: the fold of `Step` over the project
 * blocks of one page, in document order.
 */
module RunProperties {
  import opened Optional
  import opened Scraper

  /** The outcome of a step depends on the store only through whether it
      holds the block's id: neither gate looks at the store. */
  lemma StepSeesOnlyMembership(s: Store, t: Store, b: Block, f: Fields)
    requires f.id.Some? ==> (f.id.value in s <==> f.id.value in t)
    ensures Step(s, b, f).outcome == Step(t, b, f).outcome
  {
  }

  /** A run stops at its first failure and nowhere else. */
  lemma {:induction false} ProcessStopsOnlyAtFailure(s: Store, page: seq<Entry>)
    ensures var r := Process(s, page);
            && (forall i | 0 <= i < |r.outcomes| - 1 :: !r.outcomes[i].Failed?)
            && (|r.outcomes| < |page| ==> r.outcomes[|r.outcomes| - 1].Failed?)
    decreases |page|
  {
    if page != [] {
      var step := Step(s, page[0].block, page[0].fields);
      if !step.outcome.Failed? {
        ProcessStopsOnlyAtFailure(step.store, page[1..]);
        var rest := Process(step.store, page[1..]);
        var outcomes := Process(s, page).outcomes;
        assert outcomes == [step.outcome] + rest.outcomes;
        assert forall i | 1 <= i < |outcomes| :: outcomes[i] == rest.outcomes[i - 1];
      }
    }
  }

  /** A block whose id the store already held when the run started is
      reported `Known`, wherever it stands on the page. */
  lemma {:induction false} HeldIdIsKnown(s: Store, page: seq<Entry>, j: nat)
    requires j < |Process(s, page).outcomes|
    requires page[j].fields.id.Some? && page[j].fields.id.value in s
    ensures Process(s, page).outcomes[j] == Known
    decreases j
  {
    var step := Step(s, page[0].block, page[0].fields);
    if j > 0 {
      assert !step.outcome.Failed?;
      var rest := Process(step.store, page[1..]);
      assert Process(s, page).outcomes == [step.outcome] + rest.outcomes;
      assert page[1..][j - 1] == page[j];
      HeldIdIsKnown(step.store, page[1..], j - 1);
    }
  }

  /** Once a project is accepted, a later block with the same id on the same
      page is `Known`: the insertion precedes it. */
  lemma {:induction false} RepeatedIdIsKnown(s: Store, page: seq<Entry>, i: nat, j: nat)
    requires i < j < |Process(s, page).outcomes|
    requires Process(s, page).outcomes[i].Accepted?
    requires page[j].fields.id == Some(Process(s, page).outcomes[i].project.id)
    ensures Process(s, page).outcomes[j] == Known
    decreases i
  {
    var step := Step(s, page[0].block, page[0].fields);
    assert !step.outcome.Failed?;
    var rest := Process(step.store, page[1..]);
    assert Process(s, page).outcomes == [step.outcome] + rest.outcomes;
    assert page[1..][j - 1] == page[j];
    if i == 0 {
      HeldIdIsKnown(step.store, page[1..], j - 1);
    } else {
      RepeatedIdIsKnown(step.store, page[1..], i - 1, j - 1);
    }
  }

  /** The projects mailed, in order. */
  function Mailed(effects: seq<Effect>): seq<Project> {
    if effects == [] then []
    else (if effects[0].Notify? then [effects[0].project] else []) + Mailed(effects[1..])
  }

  lemma {:induction false} MailedAppend(a: seq<Effect>, b: seq<Effect>)
    ensures Mailed(a + b) == Mailed(a) + Mailed(b)
  {
    if a != [] {
      assert (a + b)[0] == a[0];
      assert (a + b)[1..] == a[1..] + b;
      MailedAppend(a[1..], b);
    } else {
      assert a + b == b;
    }
  }

  /** Every mailed project was absent from `s` and sits in `final` exactly as
      mailed. */
  ghost predicate MailedNew(s: Store, final: Store, mailed: seq<Project>) {
    forall i | 0 <= i < |mailed| ::
      mailed[i].id !in s && mailed[i].id in final && final[mailed[i].id] == mailed[i]
  }

  /** No id is mailed twice. */
  ghost predicate DistinctIds(mailed: seq<Project>) {
    forall i, j | 0 <= i < j < |mailed| :: mailed[i].id != mailed[j].id
  }

  /** Every key `final` adds to `s` was mailed, and the store grew by one key
      per mail. */
  ghost predicate MailsCoverNewKeys(s: Store, final: Store, mailed: seq<Project>) {
    && (forall id | id in final && id !in s :: exists i :: 0 <= i < |mailed| && mailed[i].id == id)
    && |final| == |s| + |mailed|
  }

  lemma MailedNewCons(s: Store, final: Store, p: Project, later: seq<Project>)
    requires p.id !in s && p.id in final && final[p.id] == p
    requires MailedNew(s[p.id := p], final, later)
    ensures MailedNew(s, final, [p] + later)
  {
    var mailed := [p] + later;
    forall i | 0 <= i < |mailed|
      ensures mailed[i].id !in s && mailed[i].id in final && final[mailed[i].id] == mailed[i]
    {
      if i > 0 {
        assert mailed[i] == later[i - 1];
      }
    }
  }

  lemma DistinctIdsCons(s: Store, final: Store, p: Project, later: seq<Project>)
    requires DistinctIds(later)
    requires MailedNew(s[p.id := p], final, later)
    ensures DistinctIds([p] + later)
  {
    var mailed := [p] + later;
    forall i, j | 0 <= i < j < |mailed|
      ensures mailed[i].id != mailed[j].id
    {
      assert mailed[j] == later[j - 1];
      if i > 0 {
        assert mailed[i] == later[i - 1];
      }
    }
  }

  lemma MailsCoverNewKeysCons(s: Store, final: Store, p: Project, later: seq<Project>)
    requires p.id !in s && p.id in final
    requires MailsCoverNewKeys(s[p.id := p], final, later)
    ensures MailsCoverNewKeys(s, final, [p] + later)
  {
    var mailed := [p] + later;
    forall id | id in final && id !in s
      ensures exists i :: 0 <= i < |mailed| && mailed[i].id == id
    {
      if id == p.id {
        assert mailed[0].id == id;
      } else {
        var k :| 0 <= k < |later| && later[k].id == id;
        assert mailed[k + 1].id == id;
      }
    }
    assert |s[p.id := p]| == |s| + 1;
  }

  /** What a run mails accounts exactly for what it adds to the store: every
      mailed project was new when the run started and is stored as mailed,
      none is mailed twice, and every added key was mailed. */
  lemma {:induction false} ProcessMailsEachNewProjectOnce(s: Store, page: seq<Entry>)
    ensures var r := Process(s, page);
            var mailed := Mailed(r.effects);
            && MailedNew(s, r.store, mailed)
            && DistinctIds(mailed)
            && MailsCoverNewKeys(s, r.store, mailed)
    decreases |page|
  {
    if page == [] {
      assert Mailed([]) == [];
    } else {
      var step := Step(s, page[0].block, page[0].fields);
      if step.outcome.Failed? {
        assert Process(s, page) == RunResult(step.store, [step.outcome], []);
        assert step.store == s && Mailed([]) == [];
      } else {
        var rest := Process(step.store, page[1..]);
        ProcessMailsEachNewProjectOnce(step.store, page[1..]);
        MailedAppend(StepEffects(step), rest.effects);
        assert Process(s, page) == RunResult(rest.store, [step.outcome] + rest.outcomes, StepEffects(step) + rest.effects);
        var later := Mailed(rest.effects);
        if step.outcome.Accepted? {
          var p := step.outcome.project;
          assert Mailed(StepEffects(step)) == [p];
          assert step.store == s[p.id := p];
          MailedNewCons(s, rest.store, p, later);
          DistinctIdsCons(s, rest.store, p, later);
          MailsCoverNewKeysCons(s, rest.store, p, later);
        } else {
          assert Mailed(StepEffects(step)) == [];
          assert Mailed(Process(s, page).effects) == later;
          assert step.store == s;
        }
      }
    }
  }

  /** The projects of the `Accepted` outcomes, in order. */
  function AcceptedProjects(os: seq<Outcome>): seq<Project> {
    if os == [] then []
    else (if os[0].Accepted? then [os[0].project] else []) + AcceptedProjects(os[1..])
  }

  /** A run mails exactly the projects it accepts, each once and in the
      order they were accepted. */
  lemma {:induction false} MailsAreAcceptances(s: Store, page: seq<Entry>)
    ensures Mailed(Process(s, page).effects) == AcceptedProjects(Process(s, page).outcomes)
    decreases |page|
  {
    if page == [] {
      assert Mailed([]) == [] && AcceptedProjects([]) == [];
    } else {
      var step := Step(s, page[0].block, page[0].fields);
      var first := if step.outcome.Accepted? then [step.outcome.project] else [];
      if step.outcome.Accepted? {
        var e := StepEffects(step);
        assert e[1..][1..] == [];
        assert Mailed(e[1..]) == [step.outcome.project] + Mailed([]);
      }
      assert Mailed(StepEffects(step)) == first;
      if step.outcome.Failed? {
        assert Process(s, page) == RunResult(step.store, [step.outcome], []);
        assert AcceptedProjects([step.outcome]) == [];
      } else {
        var rest := Process(step.store, page[1..]);
        assert Process(s, page) == RunResult(rest.store, [step.outcome] + rest.outcomes, StepEffects(step) + rest.effects);
        MailsAreAcceptances(step.store, page[1..]);
        MailedAppend(StepEffects(step), rest.effects);
        assert ([step.outcome] + rest.outcomes)[1..] == rest.outcomes;
      }
    }
  }

  /** A throw does not take back the mails already sent on the page: a block
      accepted before a block without an id is stored and mailed, and the run
      still ends in failure. */
  lemma MailThenThrow(s: Store, page: seq<Entry>)
    requires |page| == 2
    requires Step(s, page[0].block, page[0].fields).outcome.Accepted?
    requires page[1].fields.id.None?
    ensures var r := Process(s, page);
            var p := Step(s, page[0].block, page[0].fields).outcome.project;
            && r.outcomes == [Accepted(p), Failed(NoProjectId)]
            && Mailed(r.effects) == [p]
            && p.id in r.store
  {
    var step := Step(s, page[0].block, page[0].fields);
    var second := Step(step.store, page[1].block, page[1].fields);
    assert page[1..][0] == page[1];
    assert Process(step.store, page[1..]) == RunResult(step.store, [second.outcome], []);
    MailsAreAcceptances(s, page);
    var os := [step.outcome, second.outcome];
    assert os[1..][1..] == [];
    assert AcceptedProjects(os[1..]) == [] + AcceptedProjects([]);
    assert AcceptedProjects(os) == [step.outcome.project];
  }

  /** A run that mails nothing leaves the store as it found it. */
  lemma {:induction false} ProcessWithoutMailKeepsStore(s: Store, page: seq<Entry>)
    ensures Process(s, page).effects == [] ==> Process(s, page).store == s
    decreases |page|
  {
    if page != [] {
      var step := Step(s, page[0].block, page[0].fields);
      if !step.outcome.Failed? {
        var rest := Process(step.store, page[1..]);
        assert Process(s, page) == RunResult(rest.store, [step.outcome] + rest.outcomes, StepEffects(step) + rest.effects);
        if !step.outcome.Accepted? {
          ProcessWithoutMailKeepsStore(step.store, page[1..]);
        }
      }
    }
  }

  /** `a` is contained in `b`: every entry of `a` is in `b` unchanged. */
  ghost predicate SubStore(a: Store, b: Store) {
    forall id | id in a :: id in b && b[id] == a[id]
  }

  /** Each write of the store file is immediately followed by the mail of a
      project the written snapshot holds, and each mail by such a write. */
  ghost predicate WritesPrecedeMails(e: seq<Effect>) {
    && (forall i | 0 <= i < |e| && e[i].Write? ::
          i + 1 < |e| && e[i + 1].Notify?
          && e[i + 1].project.id in e[i].snapshot
          && e[i].snapshot[e[i + 1].project.id] == e[i + 1].project)
    && (forall i | 0 <= i < |e| && e[i].Notify? :: 0 < i && e[i - 1].Write?)
  }

  /** Every snapshot written is contained in `final`. */
  ghost predicate SnapshotsWithin(e: seq<Effect>, final: Store) {
    forall i | 0 <= i < |e| && e[i].Write? :: SubStore(e[i].snapshot, final)
  }

  lemma EffectsCons(x: Store, p: Project, rest: seq<Effect>, final: Store)
    requires p.id in x && x[p.id] == p && SubStore(x, final)
    requires WritesPrecedeMails(rest) && SnapshotsWithin(rest, final)
    ensures WritesPrecedeMails([Write(x), Notify(p)] + rest)
    ensures SnapshotsWithin([Write(x), Notify(p)] + rest, final)
  {
    var e := [Write(x), Notify(p)] + rest;
    forall i | 2 <= i < |e|
      ensures e[i] == rest[i - 2]
    {
    }
  }

  /** The store file is written before every mail, each snapshot is part of
      the final store, and the last snapshot written is the final store:
      after a run that accepted anything the file matches memory. */
  lemma {:induction false} ProcessWritesBeforeEachMail(s: Store, page: seq<Entry>)
    ensures var r := Process(s, page);
            && WritesPrecedeMails(r.effects)
            && SnapshotsWithin(r.effects, r.store)
            && (r.effects != [] ==> |r.effects| >= 2 && r.effects[|r.effects| - 2] == Write(r.store))
    decreases |page|
  {
    if page != [] {
      var step := Step(s, page[0].block, page[0].fields);
      if !step.outcome.Failed? {
        var rest := Process(step.store, page[1..]);
        ProcessWritesBeforeEachMail(step.store, page[1..]);
        assert Process(s, page) == RunResult(rest.store, [step.outcome] + rest.outcomes, StepEffects(step) + rest.effects);
        if step.outcome.Accepted? {
          var p := step.outcome.project;
          var e := [Write(step.store), Notify(p)] + rest.effects;
          assert StepEffects(step) == [Write(step.store), Notify(p)];
          EffectsCons(step.store, p, rest.effects, rest.store);
          if rest.effects == [] {
            ProcessWithoutMailKeepsStore(step.store, page[1..]);
            assert e[|e| - 2] == Write(step.store);
          } else {
            assert e[|e| - 2] == rest.effects[|rest.effects| - 2];
          }
        } else {
          assert StepEffects(step) == [];
        }
      }
    }
  }

  /** Running a page again on the store the first run left behind changes
      nothing: every block is `Known` or rejected as before, and nothing is
      written or mailed. Stated for any store with the same keys, which is
      what the induction needs. */
  lemma {:induction false} ProcessAgainChangesNothing(s: Store, page: seq<Entry>, t: Store)
    requires t.Keys == Process(s, page).store.Keys
    ensures var again := Process(t, page);
            && again.store == t
            && again.effects == []
            && |again.outcomes| == |Process(s, page).outcomes|
            && (forall i | 0 <= i < |again.outcomes| :: !again.outcomes[i].Accepted?)
    decreases |page|
  {
    if page != [] {
      var b := page[0].block;
      var f := page[0].fields;
      var first := Step(s, b, f);
      var second := Step(t, b, f);
      if first.outcome.Failed? {
        StepSeesOnlyMembership(s, t, b, f);
        assert Process(t, page) == RunResult(t, [second.outcome], []);
      } else {
        var rest := Process(first.store, page[1..]);
        assert Process(s, page) == RunResult(rest.store, [first.outcome] + rest.outcomes, StepEffects(first) + rest.effects);
        assert first.store.Keys <= rest.store.Keys;
        ProcessAgainChangesNothing(first.store, page[1..], t);
        var again := Process(t, page[1..]);
        if f.id.value !in t {
          StepSeesOnlyMembership(s, t, b, f);
        }
        assert !second.outcome.Failed? && !second.outcome.Accepted? && second.store == t;
        assert Process(t, page) == RunResult(again.store, [second.outcome] + again.outcomes, StepEffects(second) + again.effects);
        assert StepEffects(second) == [];
      }
    }
  }

  /** A second run of the same page, on the store of the first, is a no-op. */
  lemma RunIsIdempotent(s: Store, blocks: seq<Block>)
    ensures var r := Run(s, blocks);
            && Run(r.store, blocks).store == r.store
            && Run(r.store, blocks).effects == []
  {
    var r := Run(s, blocks);
    ProcessAgainChangesNothing(s, ReadPage(blocks), r.store);
  }
}

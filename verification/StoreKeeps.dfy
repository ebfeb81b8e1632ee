/** What the store never loses: a committed file that nobody deletes and no
    round finds bad stays in the index, and in what recovery finds. */
module StoreKeeps {
  import opened Crc
  import opened Wrappers
  import opened Spans
  import opened Files
  import opened Format
  import opened Entries
  import opened Recovery
  import opened Store
  import opened StoreInv
  import opened PlanFacts
  import opened StoreSteps
  import opened StoreSafety
  import opened StoreHistory
  import opened TwoCrashes
  import P = Planner

  /** A file as its reader knows it, wherever it lies. */
  datatype FileRec = FileRec(name: Name, size: nat, crc: u32, body: seq<u8>)

  predicate Is(e: Ent, f: FileRec) {
    e.Active() && e.name == f.name && e.size == f.size && e.crc == f.crc && e.body == f.body
  }

  ghost predicate HasFile(ents: seq<Ent>, f: FileRec) {
    exists e :: e in ents && Is(e, f)
  }

  // --- Finalize ---

  /** The index that a round writes lists exactly the files of the frozen one
      that were not found bad. */
  lemma FinalizeKeeps(frozen: Img, plan: P.Plan, bad: set<Name>, f: FileRec)
    requires PlanFor(frozen, plan)
    ensures HasFile(Finalized(frozen, plan, bad).ents, f) <==> HasFile(frozen.ents, f) && f.name !in bad
  {
    hide PlanFor, Kept, P.MaxEnd, BodyOf;
    var n := Finalized(frozen, plan, bad);
    var kept, pos := Kept(plan.items, bad), KeptPos(plan.items, bad);
    if HasFile(frozen.ents, f) && f.name !in bad {
      var e :| e in frozen.ents && Is(e, f);
      var j := EntItem(frozen, plan, e);
      KeptHas(plan.items, bad, j);
      var k :| 0 <= k < |kept| && kept[k] == plan.items[j];
      assert Is(n.ents[k], f);
    }
    if HasFile(n.ents, f) {
      var e :| e in n.ents && Is(e, f);
      var k :| 0 <= k < |n.ents| && n.ents[k] == e;
      var i := ItemEnt(frozen, plan, pos[k]);
      assert Is(frozen.ents[i], f);
    }
  }

  // --- a run that spares a name ---

  /** The two things that take a file away: a delete, and a round that finds its
      bytes bad. */
  predicate Condemns(s: State, a: Action, name: Name) {
    || a == Delete(name)
    || (a.CompNext? && a.isBad && s.comp.Moving? && s.comp.k < |s.comp.plan.items|
      && s.comp.plan.items[s.comp.k].name == name)
  }

  ghost predicate Spared(s: State, acts: seq<Action>, name: Name) {
    acts == []
    || (var p := acts[..|acts| - 1];
        Spared(s, p, name) && (Run(s, p).Some? ==> !Condemns(Run(s, p).value, acts[|acts| - 1], name)))
  }

  /** The index has the file, and so will what a round in progress makes of it. */
  ghost predicate Stays(s: State, f: FileRec) {
    HasFile(s.idx.ents, f) && (HasPlan(s.comp) ==> f.name !in s.comp.bad && HasFile(s.comp.frozen.ents, f))
  }

  lemma AllocStays(s: State, w: nat, name: Name, size: nat, f: FileRec)
    requires Inv(s) && DoAlloc(s, w, name, size).Some? && HasFile(s.idx.ents, f)
    ensures HasFile(DoAlloc(s, w, name, size).value.idx.ents, f)
  {
    hide Align4k, Find, SetLen, Without, CarriersOk, HeaderOk, CompOk, IdxHeld, WritersOk;
    var e :| e in s.idx.ents && Is(e, f);
    var i := FindIn(s.idx.ents, e);
    WithoutOk(s.idx, name);
    assert e in DoAlloc(s, w, name, size).value.idx.ents;
  }

  lemma CommitStays(s: State, w: nat, f: FileRec)
    requires Inv(s) && DoCommit(s, w).Some? && HasFile(s.idx.ents, f)
    ensures HasFile(DoCommit(s, w).value.idx.ents, f)
  {
    hide Crc32, CarriersOk, HeaderOk, CompOk, IdxHeld, IdxOk, WritersOk, Find;
    var e :| e in s.idx.ents && Is(e, f);
    var i :| 0 <= i < |s.idx.ents| && s.idx.ents[i] == e;
    assert DoCommit(s, w).value.idx.ents[i] == e;
  }

  lemma AbortStays(s: State, w: nat, f: FileRec)
    requires Inv(s) && DoAbort(s, w).Some? && HasFile(s.idx.ents, f)
    ensures HasFile(DoAbort(s, w).value.idx.ents, f)
  {
    hide Find, Without, CarriersOk, HeaderOk, CompOk, IdxHeld;
    var e :| e in s.idx.ents && Is(e, f);
    var i := FindIn(s.idx.ents, e);
    var j := FindIn(s.idx.ents, WriterEnt(s.writers[w]));
    WithoutOk(s.idx, s.writers[w].name);
    assert e in DoAbort(s, w).value.idx.ents;
  }

  lemma DeleteStays(s: State, name: Name, f: FileRec)
    requires DoDelete(s, name).Some? && HasFile(s.idx.ents, f) && f.name != name
    ensures HasFile(DoDelete(s, name).value.idx.ents, f)
  {
    hide Find;
    var e :| e in s.idx.ents && Is(e, f);
    var i :| 0 <= i < |s.idx.ents| && s.idx.ents[i] == e;
    assert DoDelete(s, name).value.idx.ents[i] == e;
  }

  lemma MutatorStays(s: State, a: Action, f: FileRec)
    requires Inv(s) && MutatorAction(a) && Step(s, a).Some? && HasFile(s.idx.ents, f) && a != Delete(f.name)
    ensures HasFile(Step(s, a).value.idx.ents, f)
  {
    hide Inv, DoAlloc, DoCommit, DoAbort, DoDelete, DoWrite, Mix, HasFile, DoComp, DoFlush, DoPersist;
    match a
    case Alloc(w, name, size) => AllocStays(s, w, name, size, f);
    case Commit(w) => CommitStays(s, w, f);
    case Abort(w) => AbortStays(s, w, f);
    case Delete(name) => DeleteStays(s, name, f);
    case _ => MutatorFrame(s, a);
  }

  lemma MarkStays(ents: seq<Ent>, bad: set<Name>, f: FileRec)
    requires HasFile(ents, f) && f.name !in bad
    ensures HasFile(MarkBad(ents, bad), f)
  {
    var e :| e in ents && Is(e, f);
    var i :| 0 <= i < |ents| && ents[i] == e;
    assert MarkBad(ents, bad)[i] == e;
  }

  /** A mutator that changes the index finds no compaction. */
  lemma MutatorPlan(s: State, a: Action)
    requires Inv(s) && MutatorAction(a) && Step(s, a).Some?
    ensures Step(s, a).value.comp == s.comp
  {
    hide Inv, Step;
    MutatorFrame(s, a);
  }

  lemma PersistPlan(s: State, a: Action)
    requires PersistAction(a) && Step(s, a).Some?
    ensures var t := Step(s, a).value;
      t.idx == s.idx && (HasPlan(t.comp) ==>
        HasPlan(s.comp) && t.comp.bad == s.comp.bad && t.comp.frozen == s.comp.frozen)
  {
    hide RegionLen, Finalized;
  }

  lemma SwapStays(s: State, f: FileRec)
    requires Inv(s) && DoComp(s, CompSwap).Some? && Stays(s, f)
    ensures Stays(DoComp(s, CompSwap).value, f)
  {
    hide Inv, HasFile, Finalized, PlanFor;
    RoundPlan(s);
    FinalizeKeeps(s.comp.frozen, s.comp.plan, s.comp.bad, f);
  }

  lemma CompMarkStays(s: State, f: FileRec)
    requires DoComp(s, CompMark).Some? && Stays(s, f)
    ensures Stays(DoComp(s, CompMark).value, f)
  {
    hide HasFile, MarkBad;
    MarkStays(s.idx.ents, s.comp.bad, f);
  }

  lemma CompRestStays(s: State, a: Action, f: FileRec)
    requires DoComp(s, a).Some? && !a.CompSwap? && !a.CompMark? && Stays(s, f) && !Condemns(s, a, f.name)
    ensures Stays(DoComp(s, a).value, f)
  {
    hide HasFile, Pwrite, SetLen, Sources, P.PlanOf, Finalized, MayGiveUp;
  }

  lemma CompStays(s: State, a: Action, f: FileRec)
    requires Inv(s) && !MutatorAction(a) && !FlushAction(a) && !PersistAction(a) && Step(s, a).Some?
    requires Stays(s, f) && !Condemns(s, a, f.name)
    ensures Stays(Step(s, a).value, f)
  {
    hide Inv, Stays, DoComp, Condemns;
    if a.CompSwap? {
      SwapStays(s, f);
    } else if a.CompMark? {
      CompMarkStays(s, f);
    } else {
      CompRestStays(s, a, f);
    }
  }

  lemma StepStays(s: State, a: Action, f: FileRec)
    requires Inv(s) && Stays(s, f) && Step(s, a).Some? && !Condemns(s, a, f.name)
    ensures Stays(Step(s, a).value, f)
  {
    hide Inv, Step, HasFile;
    if MutatorAction(a) {
      MutatorPlan(s, a);
      MutatorStays(s, a, f);
    } else if FlushAction(a) {
      FlushFrame(s, a);
    } else if PersistAction(a) {
      PersistPlan(s, a);
    } else {
      CompStays(s, a, f);
    }
  }

  // --- what recovery may find ---

  /** Every image from generation g on has the file. */
  ghost predicate Since(s: State, g: nat, f: FileRec) {
    g <= s.idx.gen && forall img :: Carried(s, img) && img.gen >= g ==> HasFile(img.ents, f)
  }

  lemma StepSince(s: State, a: Action, g: nat, f: FileRec)
    requires Inv(s) && Stays(s, f) && Since(s, g, f) && Step(s, a).Some?
    ensures Since(Step(s, a).value, g, f)
  {
    hide Inv, Step, HasFile, Carried, Finalized;
    var t := Step(s, a).value;
    StepKeeps(s, a);
    BaseStep(s, a);
    BaseGen(s);
    BaseGen(t);
    RoundPlan(s);
    forall img | Carried(t, img) && img.gen >= g
      ensures HasFile(img.ents, f)
    {
      CarriedStep(s, a, img);
      if s.comp.Synced? && img == NewImg(s.comp) {
        FinalizeKeeps(s.comp.frozen, s.comp.plan, s.comp.bad, f);
      }
    }
  }

  lemma {:induction false} RunStays(s: State, acts: seq<Action>, g: nat, f: FileRec)
    requires Inv(s) && Stays(s, f) && Since(s, g, f) && Run(s, acts).Some? && Spared(s, acts, f.name)
    ensures Stays(Run(s, acts).value, f) && Since(Run(s, acts).value, g, f)
  {
    hide Inv, Step, Stays, Since;
    if acts != [] {
      var p := acts[..|acts| - 1];
      RunStays(s, p, g, f);
      RunKeeps(s, p);
      StepStays(Run(s, p).value, acts[|acts| - 1], f);
      StepSince(Run(s, p).value, acts[|acts| - 1], g, f);
    }
  }

  /** The file that a commit makes. */
  function Committing(s: State, w: nat): FileRec
    requires w in s.writers
  {
    var wr := s.writers[w];
    FileRec(wr.name, wr.size, Crc32(wr.body), wr.body)
  }

  /** Right after its commit the file is in the index, and no image knows a
      generation as high. */
  lemma CommitStarts(s: State, w: nat)
    requires Inv(s) && Step(s, Commit(w)).Some?
    ensures w in s.writers
    ensures var t := Step(s, Commit(w)).value; Stays(t, Committing(s, w)) && Since(t, t.idx.gen, Committing(s, w))
  {
    CommitMakes(s, w);
    hide Inv, HasFile, Carried, DoCommit;
    var t := Step(s, Commit(w)).value;
    MutatorFrame(s, Commit(w));
    forall img | Carried(t, img)
      ensures img.gen < t.idx.gen
    {
      CarriedSame(s, t, img);
      CarriedOk(s, img);
    }
  }

  lemma CarriedSame(s: State, t: State, img: Img)
    requires t.hdr == s.hdr && t.job == s.job && t.flushes == s.flushes && Carried(t, img)
    ensures Carried(s, img)
  {
  }

  lemma CommitMakes(s: State, w: nat)
    requires Inv(s) && DoCommit(s, w).Some?
    ensures w in s.writers && !s.Compacting()
    ensures var t := DoCommit(s, w).value;
      t.idx.gen == s.idx.gen + 1 && t.comp == s.comp && HasFile(t.idx.ents, Committing(s, w))
  {
    hide Crc32, CarriersOk, HeaderOk, CompOk, IdxHeld, Find, Align4k;
    var t := DoCommit(s, w).value;
    var wr := s.writers[w];
    var i := FindIn(s.idx.ents, WriterEnt(wr));
    assert Is(t.idx.ents[i], Committing(s, w));
  }

  /** For every run, and every commit in it: unless the name is deleted or a
      round finds the bytes bad, the index has the file with its size, checksum
      and bytes for good; and once a persist of that generation or a later one
      has finished, so has what any crash leaves, and its data. */
  lemma CommittedSurvives(d0: Disk, before: seq<Action>, w: nat, more: seq<Action>, p: State, s: State, d: Disk)
    requires StoreOk(d0) && Run(Open(d0), before) == Some(p) && Step(p, Commit(w)).Some?
    requires var t := Step(p, Commit(w)).value;
      Run(t, more) == Some(s) && Spared(t, more, p.writers[w].name)
    requires Crash(s, d)
    ensures HasFile(s.idx.ents, Committing(p, w))
    ensures Recovered(d.hdr).Some?
    ensures s.pg >= Step(p, Commit(w)).value.idx.gen ==>
      exists e :: e in Open(d).idx.ents && Is(e, Committing(p, w)) && Holds(d.data, e.offset, e.body)
  {
    hide Inv, Step, Run, Crash;
    OpenIsGood(d0);
    RunKeeps(Open(d0), before);
    StepKeeps(p, Commit(w));
    CommitStarts(p, w);
    var f := Committing(p, w);
    var t := Step(p, Commit(w)).value;
    RunStays(t, more, t.idx.gen, f);
    RunKeeps(t, more);
    SurvivesCrash(s, d, t.idx.gen, f);
  }

  lemma SurvivesCrash(s: State, d: Disk, g: nat, f: FileRec)
    requires Inv(s) && Since(s, g, f) && Crash(s, d)
    ensures Recovered(d.hdr).Some?
    ensures s.pg >= g ==> exists e :: e in Open(d).idx.ents && Is(e, f) && Holds(d.data, e.offset, e.body)
  {
    hide Inv, Mix, HeaderCrash, Choose, Spare, SetLen, Crc32;
    CrashSelects(s, d.hdr);
    var img := Recovered(d.hdr).value;
    if s.pg >= g {
      assert Carried(s, img);
      var e :| e in img.ents && Is(e, f);
      assert EntSafe(s, e, true);
      MixHolds(s.dur, s.vol, d.data, e.offset, e.body);
      assert e in Open(d).idx.ents;
    }
  }

  // --- a flush ---

  lemma {:induction false} PgGrows(s: State, acts: seq<Action>)
    requires Inv(s) && Run(s, acts).Some?
    ensures s.pg <= Run(s, acts).value.pg
  {
    hide Inv, Step;
    if acts != [] {
      var p := acts[..|acts| - 1];
      PgGrows(s, p);
      RunKeeps(s, p);
      SbStep(Run(s, p).value, acts[|acts| - 1]);
    }
  }

  lemma {:induction false} SparedPrefix(s: State, a: seq<Action>, b: seq<Action>, name: Name)
    requires Spared(s, a + b, name)
    ensures Spared(s, a, name)
  {
    if b == [] {
      assert a + b == a;
    } else {
      assert (a + b)[..|a + b| - 1] == a + b[..|b| - 1];
      SparedPrefix(s, a, b[..|b| - 1], name);
    }
  }

  /** A flush that runs through after the commit is such a persist: from then on
      the file survives whatever happens, apart from a delete or bad bytes. */
  lemma FlushedSurvives(d0: Disk, before: seq<Action>, w: nat, until: seq<Action>, f: nat, more: seq<Action>, p: State,
      u: State, s: State, d: Disk)
    requires StoreOk(d0) && Run(Open(d0), before) == Some(p) && Step(p, Commit(w)).Some?
    requires var t := Step(p, Commit(w)).value;
      && Run(t, until) == Some(u) && MayFlush(u, f)
      && Run(t, until + ToDone(f) + more) == Some(s) && Spared(t, until + ToDone(f) + more, p.writers[w].name)
    requires Crash(s, d)
    ensures Recovered(d.hdr).Some?
    ensures exists e :: e in Open(d).idx.ents && Is(e, Committing(p, w)) && Holds(d.data, e.offset, e.body)
  {
    hide Inv, Step, Run, Crash, ToDone, MayFlush, Stays, Since, Is;
    OpenIsGood(d0);
    RunKeeps(Open(d0), before);
    StepKeeps(p, Commit(w));
    CommitStarts(p, w);
    var t := Step(p, Commit(w)).value;
    assert until + (ToDone(f) + more) == until + ToDone(f) + more;
    SparedPrefix(t, until, ToDone(f) + more, p.writers[w].name);
    RunKeeps(t, until);
    RunStays(t, until, t.idx.gen, Committing(p, w));
    FlushToDone(u, f);
    RunConcat(t, until, ToDone(f));
    RunConcat(t, until + ToDone(f), more);
    RunKeeps(t, until + ToDone(f));
    PgGrows(Flushed(u, f), more);
    SinceGen(u, t.idx.gen, Committing(p, w));
    CommittedSurvives(d0, before, w, until + ToDone(f) + more, p, s, d);
  }

  lemma SinceGen(s: State, g: nat, f: FileRec)
    requires Since(s, g, f)
    ensures g <= s.idx.gen
  {
  }

  // --- a deleted file ---

  ghost predicate NoFile(ents: seq<Ent>, name: Name) {
    forall e :: e in ents && e.name == name ==> !e.Active()
  }

  predicate Recommits(s: State, a: Action, name: Name) {
    a.Commit? && a.w in s.writers && s.writers[a.w].name == name
  }

  ghost predicate Uncommitted(s: State, acts: seq<Action>, name: Name) {
    acts == []
    || (var p := acts[..|acts| - 1];
        Uncommitted(s, p, name) && (Run(s, p).Some? ==> !Recommits(Run(s, p).value, acts[|acts| - 1], name)))
  }

  ghost predicate Gone(s: State, g: nat, name: Name) {
    && NoFile(s.idx.ents, name) && NoFile(Base(s).ents, name) && g <= s.idx.gen
    && forall img :: Carried(s, img) && img.gen >= g ==> NoFile(img.ents, name)
  }

  lemma FinalizeNone(frozen: Img, plan: P.Plan, bad: set<Name>, name: Name)
    requires PlanFor(frozen, plan) && NoFile(frozen.ents, name)
    ensures NoFile(Finalized(frozen, plan, bad).ents, name)
  {
    hide PlanFor, Finalized;
    forall e | e in Finalized(frozen, plan, bad).ents && e.name == name
      ensures !e.Active()
    {
      var f := FileRec(e.name, e.size, e.crc, e.body);
      if e.Active() {
        assert Is(e, f);
        FinalizeKeeps(frozen, plan, bad, f);
      }
    }
  }

  lemma MarkedNone(s: State, name: Name)
    requires Inv(s) && NoFile(Base(s).ents, name)
    ensures NoFile(s.idx.ents, name)
  {
    hide IdxOk, ImgOk, WritersOk, CarriersOk, HeaderOk;
    if AfterMark(s.comp) {
      forall e | e in s.idx.ents && e.name == name
        ensures !e.Active()
      {
        var k :| 0 <= k < |s.idx.ents| && s.idx.ents[k] == e;
        assert s.comp.frozen.ents[k] in s.comp.frozen.ents;
      }
    }
  }

  lemma StepGone(s: State, a: Action, g: nat, name: Name)
    requires Inv(s) && Gone(s, g, name) && Step(s, a).Some? && !Recommits(s, a, name)
    ensures Gone(Step(s, a).value, g, name)
  {
    hide Inv, Step, Carried, Finalized;
    var t := Step(s, a).value;
    StepKeeps(s, a);
    BaseStep(s, a);
    BaseGen(s);
    BaseGen(t);
    RoundPlan(s);
    if s.comp.Synced? || s.comp.Flipped? {
      FinalizeNone(s.comp.frozen, s.comp.plan, s.comp.bad, name);
    }
    assert NoFile(Base(t).ents, name);
    MarkedNone(t, name);
    forall img | Carried(t, img) && img.gen >= g
      ensures NoFile(img.ents, name)
    {
      CarriedStep(s, a, img);
    }
  }

  lemma {:induction false} RunGone(s: State, acts: seq<Action>, g: nat, name: Name)
    requires Inv(s) && Gone(s, g, name) && Run(s, acts).Some? && Uncommitted(s, acts, name)
    ensures Gone(Run(s, acts).value, g, name)
  {
    hide Inv, Step, Gone;
    if acts != [] {
      var p := acts[..|acts| - 1];
      RunGone(s, p, g, name);
      RunKeeps(s, p);
      StepGone(Run(s, p).value, acts[|acts| - 1], g, name);
    }
  }

  lemma DeleteMakes(s: State, name: Name)
    requires Inv(s) && DoDelete(s, name).Some?
    ensures var t := DoDelete(s, name).value; NoFile(t.idx.ents, name) && !s.Compacting() && s.idx.gen <= t.idx.gen
  {
    hide CarriersOk, HeaderOk, CompOk, IdxHeld, WritersOk, Align4k;
    var t := DoDelete(s, name).value;
    var i := Find(s.idx.ents, name).value;
    forall e | e in t.idx.ents && e.name == name
      ensures !e.Active()
    {
      var k :| 0 <= k < |t.idx.ents| && t.idx.ents[k] == e;
      assert k == i;
    }
  }

  lemma DeleteStarts(s: State, name: Name)
    requires Inv(s) && Step(s, Delete(name)).Some?
    ensures var t := Step(s, Delete(name)).value; Gone(t, t.idx.gen, name)
  {
    DeleteMakes(s, name);
    hide Inv, Carried, DoDelete;
    var t := Step(s, Delete(name)).value;
    StepKeeps(s, Delete(name));
    MutatorFrame(s, Delete(name));
    BaseGen(t);
    forall img | Carried(t, img) && img.gen >= t.idx.gen
      ensures NoFile(img.ents, name)
    {
      CarriedOk(t, img);
    }
  }

  /** For every run, and every delete in it: unless a writer commits the name
      again it has no Active entry any more; and once a persist of that
      generation or a later one has finished, neither has what any crash leaves. */
  lemma DeletedStaysGone(d0: Disk, before: seq<Action>, name: Name, more: seq<Action>, p: State, s: State, d: Disk)
    requires StoreOk(d0) && Run(Open(d0), before) == Some(p) && Step(p, Delete(name)).Some?
    requires var t := Step(p, Delete(name)).value; Run(t, more) == Some(s) && Uncommitted(t, more, name)
    requires Crash(s, d)
    ensures NoFile(s.idx.ents, name) && Recovered(d.hdr).Some?
    ensures s.pg >= Step(p, Delete(name)).value.idx.gen ==> NoFile(Open(d).idx.ents, name)
  {
    hide Inv, Step, Run, HeaderCrash, Mix;
    OpenIsGood(d0);
    RunKeeps(Open(d0), before);
    StepKeeps(p, Delete(name));
    DeleteStarts(p, name);
    var t := Step(p, Delete(name)).value;
    RunGone(t, more, t.idx.gen, name);
    RunKeeps(t, more);
    CrashSelects(s, d.hdr);
    assert Carried(s, Recovered(d.hdr).value);
  }
}

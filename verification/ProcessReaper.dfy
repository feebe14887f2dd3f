/** The sandbox's per-invocation process reaper, over the tree of processes below it. */
module ProcessReaper {
  import opened Wrappers

  /** A process that is alive, or a zombie nobody has waited for. */
  datatype Proc = Proc(parent: nat, alive: bool)

  type Procs = map<nat, Proc>

  // ---- the tree ----------------------------------------------------------------------------

  /** Every process below the reaper `me` hangs from it through living ancestors, `rank` growing
      on the way down. */
  predicate Rooted(procs: Procs, me: nat, rank: map<nat, nat>) {
    me !in procs &&
    forall p :: p in procs ==> p in rank && (procs[p].parent == me || Below(procs, rank, procs[p].parent, p))
  }

  predicate Below(procs: Procs, rank: map<nat, nat>, parent: nat, child: nat)
    requires child in rank
  {
    parent in procs && parent in rank && procs[parent].alive && rank[parent] < rank[child]
  }

  function Children(procs: Procs, me: nat): set<nat> {
    set p | p in procs && procs[p].parent == me
  }

  lemma {:induction false} TopAncestor(procs: Procs, me: nat, rank: map<nat, nat>, p: nat) returns (top: nat)
    requires Rooted(procs, me, rank) && p in procs
    ensures top in Children(procs, me)
    decreases rank[p]
  {
    if procs[p].parent == me {
      top := p;
    } else {
      top := TopAncestor(procs, me, rank, procs[p].parent);
    }
  }

  /** No direct child means no descendant at all, alive or zombie. */
  lemma NoChildrenNoTree(procs: Procs, me: nat, rank: map<nat, nat>)
    requires Rooted(procs, me, rank)
    ensures Children(procs, me) == {} <==> procs == map[]
  {
    if procs != map[] {
      var p :| p in procs;
      var top := TopAncestor(procs, me, rank, p);
    }
  }

  // ---- what happens to it ------------------------------------------------------------------

  /** A process dies: it becomes a zombie and the reaper adopts its children. */
  function Died(procs: Procs, me: nat, pid: nat): Procs {
    map q | q in procs :: Proc(if procs[q].parent == pid then me else procs[q].parent, procs[q].alive && q != pid)
  }

  function DiedAll(procs: Procs, me: nat, dead: set<nat>): Procs {
    map q | q in procs ::
      Proc(if procs[q].parent in dead then me else procs[q].parent, procs[q].alive && q !in dead)
  }

  /** What one quiet pass leaves: the children are gone and the grandchildren have moved up. */
  function PassLeaves(procs: Procs, me: nat): Procs {
    DiedAll(procs, me, Children(procs, me)) - Children(procs, me)
  }

  lemma OneMoreDied(procs: Procs, me: nat, dead: set<nat>, pid: nat)
    ensures Died(DiedAll(procs, me, dead), me, pid) == DiedAll(procs, me, dead + {pid})
  {
  }

  lemma DiedKeepsRooted(procs: Procs, me: nat, rank: map<nat, nat>, pid: nat)
    requires Rooted(procs, me, rank)
    ensures Rooted(Died(procs, me, pid), me, rank)
  {
  }

  lemma RemoveKeepsRooted(procs: Procs, me: nat, rank: map<nat, nat>, pid: nat)
    requires Rooted(procs, me, rank)
    requires pid in procs ==> !procs[pid].alive
    ensures Rooted(procs - {pid}, me, rank)
  {
  }

  lemma ForkKeepsRooted(procs: Procs, me: nat, rank: map<nat, nat>, parent: nat, child: nat)
    requires Rooted(procs, me, rank)
    requires parent in procs && procs[parent].alive && child !in procs && child != me
    ensures Rooted(procs[child := Proc(parent, true)], me, rank[child := rank[parent] + 1])
  {
    var procs', rank' := procs[child := Proc(parent, true)], rank[child := rank[parent] + 1];
    forall p | p in procs'
      ensures p in rank' && (procs'[p].parent == me || Below(procs', rank', procs'[p].parent, p))
    {
      if p != child && procs[p].parent != me {
        assert Below(procs, rank, procs[p].parent, p);
      }
    }
  }

  // ---- layers ------------------------------------------------------------------------------

  /** Steps from the reaper down to `p`. */
  function Depth(procs: Procs, me: nat, rank: map<nat, nat>, p: nat): nat
    requires Rooted(procs, me, rank) && p in procs
    decreases rank[p]
  {
    if procs[p].parent == me then 1 else 1 + Depth(procs, me, rank, procs[p].parent)
  }

  predicate NoDeeperThan(procs: Procs, me: nat, rank: map<nat, nat>, height: nat)
    requires Rooted(procs, me, rank)
  {
    forall p :: p in procs ==> Depth(procs, me, rank, p) <= height
  }

  lemma PassKeepsRooted(procs: Procs, me: nat, rank: map<nat, nat>)
    requires Rooted(procs, me, rank)
    ensures Rooted(PassLeaves(procs, me), me, rank)
  {
    var left := PassLeaves(procs, me);
    forall p | p in left
      ensures p in rank && (left[p].parent == me || Below(left, rank, left[p].parent, p))
    {
      if left[p].parent != me {
        assert Below(procs, rank, procs[p].parent, p);
      }
    }
  }

  lemma {:induction false} DepthAfterPass(procs: Procs, me: nat, rank: map<nat, nat>, p: nat)
    requires Rooted(procs, me, rank) && Rooted(PassLeaves(procs, me), me, rank)
    requires p in PassLeaves(procs, me)
    ensures p in procs && Depth(PassLeaves(procs, me), me, rank, p) == Depth(procs, me, rank, p) - 1
    decreases rank[p]
  {
    var parent := procs[p].parent;
    if parent !in Children(procs, me) {
      DepthAfterPass(procs, me, rank, parent);
    }
  }

  /** A quiet pass removes exactly the first layer, and everything else moves up by one. */
  lemma PassRemovesOneLayer(procs: Procs, me: nat, rank: map<nat, nat>)
    requires Rooted(procs, me, rank)
    ensures var left := PassLeaves(procs, me);
            Rooted(left, me, rank) &&
            (forall p :: p in left <==> p in procs && Depth(procs, me, rank, p) > 1) &&
            (forall p :: p in left ==> Depth(left, me, rank, p) == Depth(procs, me, rank, p) - 1) &&
            (forall h: nat :: NoDeeperThan(procs, me, rank, h + 1) <==> NoDeeperThan(left, me, rank, h))
  {
    PassKeepsRooted(procs, me, rank);
    var left := PassLeaves(procs, me);
    forall p | p in left
      ensures Depth(left, me, rank, p) == Depth(procs, me, rank, p) - 1
    {
      DepthAfterPass(procs, me, rank, p);
    }
    forall p | p in procs
      ensures p in left <==> Depth(procs, me, rank, p) > 1
    {
    }
    forall h: nat
      ensures NoDeeperThan(procs, me, rank, h + 1) <==> NoDeeperThan(left, me, rank, h)
    {
      if NoDeeperThan(left, me, rank, h) {
        forall p | p in procs
          ensures Depth(procs, me, rank, p) <= h + 1
        {
          if p in left {
            assert Depth(left, me, rank, p) <= h;
          }
        }
      }
    }
  }

  /** Deaths never push anything down. */
  lemma {:induction false} DepthAfterDeaths(procs: Procs, me: nat, rank: map<nat, nat>, dead: set<nat>, p: nat)
    requires Rooted(procs, me, rank) && Rooted(DiedAll(procs, me, dead), me, rank) && p in procs
    ensures Depth(DiedAll(procs, me, dead), me, rank, p) <= Depth(procs, me, rank, p)
    decreases rank[p]
  {
    if procs[p].parent != me && procs[p].parent !in dead {
      DepthAfterDeaths(procs, me, rank, dead, procs[p].parent);
    }
  }

  lemma DeathsKeepHeight(procs: Procs, me: nat, rank: map<nat, nat>, dead: set<nat>)
    requires Rooted(procs, me, rank) && Rooted(DiedAll(procs, me, dead), me, rank)
    ensures forall h: nat :: NoDeeperThan(procs, me, rank, h) ==> NoDeeperThan(DiedAll(procs, me, dead), me, rank, h)
  {
    forall h: nat, p | NoDeeperThan(procs, me, rank, h) && p in procs
      ensures Depth(DiedAll(procs, me, dead), me, rank, p) <= h
    {
      DepthAfterDeaths(procs, me, rank, dead, p);
    }
  }

  // ---- the reaper --------------------------------------------------------------------------

  /** Only the reaper waits for its own children: whatever else happens they stay its children, and
      the dead ones stay dead. */
  ghost predicate Stay(before: Procs, after: Procs, me: nat, but: set<nat>) {
    forall p :: p in before && before[p].parent == me && p !in but ==>
                  p in after && after[p].parent == me && (!before[p].alive ==> !after[p].alive)
  }

  /** The children found while the entries `left` are still to be read. */
  ghost predicate Found(start: Procs, now: Procs, me: nat, hidden: set<nat>, children: set<nat>, left: set<nat>) {
    children <= Children(now, me) - hidden && Children(start, me) - hidden - left <= children
  }

  lemma OneMoreEntry(start: Procs, before: Procs, now: Procs, me: nat, hidden: set<nat>, children: set<nat>,
                     left: set<nat>, pid: nat)
    requires Found(start, before, me, hidden, children, left)
    requires Stay(start, now, me, {}) && Stay(before, now, me, {})
    ensures var mine := pid in now && pid !in hidden && now[pid].parent == me;
            Found(start, now, me, hidden, if mine then children + {pid} else children, left - {pid})
  {
  }

  /** `quiet` means nothing below the reaper acts by itself any more, `visible` that this is a Linux
      host whose process table can be listed; the entries of `hidden` cannot be read all the same. */
  class Reaper {
    const me: nat
    const visible: bool
    const hidden: set<nat>
    const quiet: bool
    var procs: Procs
    ghost var rank: map<nat, nat>

    ghost predicate Valid()
      reads this
    {
      Rooted(procs, me, rank)
    }

    constructor (me: nat, visible: bool, hidden: set<nat>, quiet: bool, root: nat)
      requires root != me
      ensures Valid() && procs == map[root := Proc(me, true)]
      ensures this.me == me && this.visible == visible && this.hidden == hidden && this.quiet == quiet
    {
      this.me, this.visible, this.hidden, this.quiet := me, visible, hidden, quiet;
      procs, rank := map[root := Proc(me, true)], map[root := 0];
    }

    /** Anything the processes may do between two steps of the reaper: fork, exit, or wait for a
        child of their own. An empty tree can do nothing. */
    method Interfere()
      requires Valid()
      modifies this
      ensures Valid() && Stay(old(procs), procs, me, {})
      ensures quiet || old(procs) == map[] ==> procs == old(procs) && rank == old(rank)
    {
      if quiet {
        return;
      }
      var steps: nat := *;
      while steps > 0
        invariant Valid() && Stay(old(procs), procs, me, {})
        invariant old(procs) == map[] ==> procs == map[] && rank == old(rank)
      {
        steps := steps - 1;
        if procs != map[] {
          var p :| p in procs;
          if * {
            var child: nat := *;
            if procs[p].alive && child !in procs && child != me {
              ForkKeepsRooted(procs, me, rank, p, child);
              procs, rank := procs[child := Proc(p, true)], rank[child := rank[p] + 1];
            }
          } else if * {
            DiedKeepsRooted(procs, me, rank, p);
            procs := Died(procs, me, p);
          } else if !procs[p].alive && procs[p].parent != me {
            RemoveKeepsRooted(procs, me, rank, p);
            procs := procs - {p};
          }
        }
      }
    }

    /** Reading one entry: the process may be gone by then, or its entry unreadable. */
    method IsChild(pid: nat) returns (mine: bool)
      requires Valid()
      modifies this
      ensures Valid() && Stay(old(procs), procs, me, {})
      ensures mine <==> pid in procs && pid !in hidden && procs[pid].parent == me
      ensures quiet || old(procs) == map[] ==> procs == old(procs) && rank == old(rank)
    {
      Interfere();
      mine := pid in procs && pid !in hidden && procs[pid].parent == me;
    }

    /** The scan of the process table, during which the processes go on: `more` are entries that come
        up only while it runs. It finds every child that was there when it began and can be read, and
        only children that are there when it ends. So with nothing hidden an empty answer still means
        an empty tree. */
    method DirectChildren() returns (children: set<nat>)
      requires Valid()
      modifies this
      ensures Valid() && Stay(old(procs), procs, me, {})
      ensures visible ==> old(Children(procs, me)) - hidden <= children
      ensures children <= Children(procs, me) - hidden && (!visible ==> children == {})
      ensures visible && hidden == {} && children == {} ==> procs == map[]
      ensures quiet ==> procs == old(procs) && rank == old(rank)
    {
      children := {};
      if !visible {
        return;
      }
      ghost var start, startRank := procs, rank;
      NoChildrenNoTree(start, me, startRank);
      var more: set<nat> := *;
      var entries := procs.Keys + more;
      while entries != {}
        invariant Valid() && Stay(start, procs, me, {})
        invariant Found(start, procs, me, hidden, children, entries)
        invariant quiet || start == map[] ==> procs == start && rank == startRank
        decreases entries
      {
        var pid :| pid in entries;
        ghost var before := procs;
        var mine := IsChild(pid);
        OneMoreEntry(start, before, procs, me, hidden, children, entries, pid);
        if mine {
          children := children + {pid};
        }
        entries := entries - {pid};
      }
    }

    method Kill(pid: nat)
      requires Valid()
      modifies this`procs
      ensures Valid() && procs == Died(old(procs), me, pid) && Stay(old(procs), procs, me, {})
      ensures pid in procs ==> !procs[pid].alive
    {
      DiedKeepsRooted(procs, me, rank, pid);
      procs := Died(procs, me, pid);
    }

    /** Waiting for a dead child removes it; anything else is no child of the reaper any more. */
    method Wait(pid: nat)
      requires Valid()
      modifies this`procs
      ensures Valid() && Stay(old(procs), procs, me, {pid})
      ensures procs == if pid in old(procs) && old(procs)[pid].parent == me && !old(procs)[pid].alive
                       then old(procs) - {pid} else old(procs)
    {
      if pid in procs && procs[pid].parent == me && !procs[pid].alive {
        RemoveKeepsRooted(procs, me, rank, pid);
        procs := procs - {pid};
      }
    }

    /** Whatever is forked meanwhile, every child killed is a zombie afterwards and no child is lost. */
    method KillEach(children: set<nat>)
      requires Valid()
      modifies this
      ensures Valid() && Stay(old(procs), procs, me, {})
      ensures forall p :: p in children && p in old(Children(procs, me)) ==> p in Children(procs, me) && !procs[p].alive
      ensures quiet ==> procs == DiedAll(old(procs), me, children) && rank == old(rank)
    {
      var left := children;
      ghost var before := procs;
      assert DiedAll(procs, me, {}) == procs;
      while left != {}
        invariant Valid() && left <= children && Stay(before, procs, me, {})
        invariant forall p :: p in children - left && p in Children(before, me) ==> p in procs && !procs[p].alive
        invariant quiet ==> procs == DiedAll(before, me, children - left) && rank == old(rank)
        decreases left
      {
        var pid :| pid in left;
        Interfere();
        OneMoreDied(before, me, children - left, pid);
        Kill(pid);
        assert children - (left - {pid}) == (children - left) + {pid};
        left := left - {pid};
      }
      assert children - {} == children;
    }

    /** No child but those waited for is lost; in a quiet tree those are gone, and nothing else. */
    method WaitEach(children: set<nat>)
      requires Valid()
      requires quiet ==> forall p :: p in children ==> p in procs && procs[p].parent == me && !procs[p].alive
      modifies this
      ensures Valid() && Stay(old(procs), procs, me, children)
      ensures quiet ==> procs == old(procs) - children && rank == old(rank)
    {
      var left := children;
      while left != {}
        invariant Valid() && left <= children && Stay(old(procs), procs, me, children)
        invariant quiet ==> procs == old(procs) - (children - left) && rank == old(rank)
        decreases left
      {
        var pid :| pid in left;
        Interfere();
        Wait(pid);
        assert children - (left - {pid}) == (children - left) + {pid};
        left := left - {pid};
      }
      assert children - {} == children;
    }

    /** Kills the root's process group, if the root is alive; which processes are in it is open. */
    method KillGroup(root: nat)
      requires Valid()
      modifies this
      ensures Valid() && Stay(old(procs), procs, me, {})
      ensures root in procs ==> !procs[root].alive || !old(root in procs && procs[root].alive)
      ensures quiet ==> rank == old(rank)
      ensures quiet ==> forall h: nat :: NoDeeperThan(old(procs), me, old(rank), h) ==> NoDeeperThan(procs, me, rank, h)
    {
      if root in procs && procs[root].alive {
        var group: set<nat> := *;
        ghost var before := procs;
        KillEach(group);
        OneMoreDied(before, me, group, root);
        Kill(root);
        if quiet {
          DeathsKeepHeight(before, me, rank, group + {root});
        }
      }
    }

    /** One round of the clean-up loop: `empty` when no child was found, otherwise the children found
        are killed and waited for. A quiet tree loses its first layer. */
    method Pass() returns (empty: bool)
      requires Valid()
      modifies this
      ensures Valid()
      ensures visible && hidden == {} ==> (empty ==> procs == map[])
      ensures !visible ==> empty
      ensures visible && hidden == {} && quiet && !empty ==>
                rank == old(rank) && procs == PassLeaves(old(procs), me)
    {
      Interfere();
      var children := DirectChildren();
      if children == {} {
        return true;
      }
      KillEach(children);
      WaitEach(children);
      empty := false;
    }

    /** The clean-up loop, `passes` being the passes that fit before the deadline. With a readable
        process table True is only returned when the whole tree is gone, whatever the processes do
        meanwhile; and a quiet tree is gone after as many passes as it is high. */
    method Clean(passes: nat) returns (clean: bool)
      requires Valid()
      modifies this
      ensures Valid()
      ensures visible && hidden == {} ==> (clean ==> procs == map[])
      ensures !visible ==> clean
      ensures visible && hidden == {} && quiet && old(NoDeeperThan(procs, me, rank, passes)) ==> clean
    {
      var left: nat := passes;
      ghost var low := visible && quiet && hidden == {} && NoDeeperThan(procs, me, rank, passes);
      while left > 0
        invariant Valid() && left <= passes
        invariant low ==> NoDeeperThan(procs, me, rank, left)
      {
        PassRemovesOneLayer(procs, me, rank);
        var empty := Pass();
        if empty {
          return true;
        }
        left := left - 1;
      }
      Interfere();
      NoChildrenNoTree(procs, me, rank);
      var rest := DirectChildren();
      clean := rest == {};
    }

    /** `_kill_and_reap`. */
    method KillAndReap(root: Option<nat>, passes: nat) returns (clean: bool)
      requires Valid()
      modifies this
      ensures Valid()
      ensures visible && hidden == {} ==> (clean ==> procs == map[])
      ensures !visible ==> clean
      ensures visible && hidden == {} && quiet && old(NoDeeperThan(procs, me, rank, passes)) ==> clean
    {
      if root.Some? {
        KillGroup(root.value);
      }
      clean := Clean(passes);
    }

    /** The tail of `main`: `code` is the tool's return code, None after a timeout. No error is
        reported only when no process of the tool is left, or some cannot be seen. */
    method Finish(root: nat, code: Option<int>, passes: nat) returns (status: Status, exit: int)
      requires Valid()
      modifies this
      ensures Valid()
      ensures status.error == "" ==> status.returncode == if code.Some? then code.value else 124
      ensures visible && hidden == {} && status.error == "" ==> procs == map[]
      ensures visible && hidden == {} && quiet && old(NoDeeperThan(procs, me, rank, passes)) ==> status.error == ""
      ensures !visible ==> status.error == ""
      ensures status.error != "" ==> status.returncode == 125 && exit == 125
      ensures status.timedOut == code.None? && 0 <= exit <= 255
      ensures exit == status.returncode || (exit == 125 && !(0 <= status.returncode <= 255))
    {
      var returncode := if code.Some? then code.value else 124;
      var cleaned := KillAndReap(Some(root), passes);
      if !cleaned {
        return Status(125, code.None?, "process-tree cleanup deadline exceeded"), 125;
      }
      status := Status(returncode, code.None?, "");
      exit := if 0 <= returncode <= 255 then returncode else 125;
    }
  }

  datatype Status = Status(returncode: int, timedOut: bool, error: string)
}

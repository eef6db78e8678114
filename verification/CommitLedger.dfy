/** The commit gate and the store rows it leaves behind (packages/core/src/commit-gate/gate.ts,
    packages/core/src/commit-gate/record-commit.ts, packages/core/src/commit-gate/workspace-commit.ts). */
module CommitLedger {
  import opened Outcomes
  import opened Paths
  import opened Repository

  /** A run-to-commit link names a commit and the files it says that commit holds. */
  datatype Link = Link(sha: nat, files: seq<string>)

  datatype Event =
    | AgentSelfCommit(headBefore: nat, headNow: nat)
    | BoundaryRefused(files: seq<string>)
    | CommitRecorded(sha: nat, files: seq<string>)
    | OutOfScopeCommitted(files: seq<string>)

  class Store {
    var links: seq<Link>
    var events: seq<Event>

    constructor ()
      ensures links == [] && events == []
    {
      links, events := [], [];
    }
  }

  // ----- scope -----

  /** The paths a scope allows, or does not allow, in order. */
  function Side(changed: seq<string>, scope: string -> bool, allowed: bool): seq<string> {
    if changed == [] then []
    else
      var front, f := Side(changed[..|changed| - 1], scope, allowed), changed[|changed| - 1];
      if scope(f) == allowed then front + [f] else front
  }

  function InScope(changed: seq<string>, scope: string -> bool): seq<string> {
    Side(changed, scope, true)
  }

  function OutOfScope(changed: seq<string>, scope: string -> bool): seq<string> {
    Side(changed, scope, false)
  }

  method PartitionByScope(changed: seq<string>, scope: string -> bool)
    returns (inScope: seq<string>, outOfScope: seq<string>)
    ensures inScope == InScope(changed, scope)
    ensures outOfScope == OutOfScope(changed, scope)
  {
    inScope, outOfScope := [], [];
    for i := 0 to |changed|
      invariant inScope == Side(changed[..i], scope, true)
      invariant outOfScope == Side(changed[..i], scope, false)
    {
      assert changed[..i + 1][..i] == changed[..i];
      if scope(changed[i]) {
        inScope := inScope + [changed[i]];
      } else {
        outOfScope := outOfScope + [changed[i]];
      }
    }
    assert changed[..|changed|] == changed;
  }

  lemma {:induction false} SideHolds(changed: seq<string>, scope: string -> bool, allowed: bool)
    ensures forall f :: f in Side(changed, scope, allowed) ==> scope(f) == allowed
  {
    if changed != [] {
      SideHolds(changed[..|changed| - 1], scope, allowed);
    }
  }

  /** A partition loses and invents no path, and each side holds only what belongs there. */
  lemma {:induction false} PartitionConserves(changed: seq<string>, scope: string -> bool)
    ensures multiset(InScope(changed, scope)) + multiset(OutOfScope(changed, scope)) == multiset(changed)
    ensures forall f :: f in InScope(changed, scope) ==> scope(f)
    ensures forall f :: f in OutOfScope(changed, scope) ==> !scope(f)
  {
    SideHolds(changed, scope, true);
    SideHolds(changed, scope, false);
    SidesSum(changed, scope);
  }

  /** What falls outside a scope is, path by path and as often, what it does not allow. */
  lemma {:induction false} OutsideIs(changed: seq<string>, scope: string -> bool, f: string)
    ensures multiset(OutOfScope(changed, scope))[f] == if scope(f) then 0 else multiset(changed)[f]
    ensures multiset(InScope(changed, scope))[f] == if scope(f) then multiset(changed)[f] else 0
  {
    if changed != [] {
      OutsideIs(changed[..|changed| - 1], scope, f);
      assert changed == changed[..|changed| - 1] + [changed[|changed| - 1]];
    }
  }

  lemma AllowedIff(changed: seq<string>, scope: string -> bool)
    ensures OutOfScope(changed, scope) != [] <==> exists i :: 0 <= i < |changed| && !scope(changed[i])
  {
    var outside := OutOfScope(changed, scope);
    if outside != [] {
      OutsideIs(changed, scope, outside[0]);
      assert outside[0] in multiset(changed);
      var i :| 0 <= i < |changed| && changed[i] == outside[0];
      assert !scope(changed[i]);
    }
    if i :| 0 <= i < |changed| && !scope(changed[i]) {
      OutsideIs(changed, scope, changed[i]);
      assert changed[i] in multiset(changed);
    }
  }

  lemma {:induction false} SidesSum(changed: seq<string>, scope: string -> bool)
    ensures multiset(Side(changed, scope, true)) + multiset(Side(changed, scope, false)) == multiset(changed)
  {
    if changed != [] {
      SidesSum(changed[..|changed| - 1], scope);
      assert changed == changed[..|changed| - 1] + [changed[|changed| - 1]];
    }
  }

  // ----- the gate on values -----

  /** History, links and events of a run, and the HEAD the last gate call left behind. */
  datatype Ledger = Ledger(history: seq<Commit>, links: seq<Link>, events: seq<Event>, seen: nat)

  /** One gate call: the HEAD its caller captured, the working tree and git's list of changed paths,
      the scope, the optional audit boundary, git's verdict, and the commits an agent slips in after
      the gate has read HEAD (none when the call runs undisturbed). */
  datatype GateCall = GateCall(
    headBefore: nat, work: Tree, changed: seq<string>,
    inScope: string -> bool, boundary: Option<string -> bool>,
    verdict: GitVerdict, slipped: seq<Commit>)

  datatype GateEnd = RefusedSelfCommit | RefusedPaths | CommitFailed | NothingToCommit | Committed

  function EndOf(l: Ledger, g: GateCall): GateEnd {
    if g.boundary.Some? && g.headBefore != |l.history| then RefusedSelfCommit
    else if g.boundary.Some? && OutOfScope(g.changed, g.boundary.value) != [] then RefusedPaths
    else if g.changed == [] then NothingToCommit
    else if g.verdict.stages && g.verdict.commits then Committed
    else CommitFailed
  }

  function Gate(l: Ledger, g: GateCall): Ledger
    requires l.history != []
  {
    var head := |l.history|;
    var entered := if g.headBefore != head then l.events + [AgentSelfCommit(g.headBefore, head)] else l.events;
    var history := l.history + g.slipped;
    match EndOf(l, g)
    case RefusedSelfCommit => Ledger(history, l.links, entered, |history|)
    case RefusedPaths =>
      Ledger(history, l.links, entered + [BoundaryRefused(OutOfScope(g.changed, g.boundary.value))], |history|)
    case CommitFailed => Ledger(history, l.links, entered, |history|)
    case NothingToCommit => Ledger(history, l.links, entered, |history|)
    case Committed =>
      var sha := |history| + 1;
      var outside := OutOfScope(g.changed, g.inScope);
      Ledger(
        history + [Commit(g.changed, TreeWith(history[|history| - 1].tree, g.work, g.changed))],
        l.links + [Link(sha, g.changed)],
        entered + [CommitRecorded(sha, g.changed)] + (if outside == [] then [] else [OutOfScopeCommitted(outside)]),
        sha)
  }

  /** With a boundary, a call is refused before anything is committed exactly when HEAD has moved or a changed
      path is not allowed; otherwise, and without one, git decides over what changed. */
  lemma BoundaryRefusesIff(l: Ledger, g: GateCall)
    ensures var moved := g.headBefore != |l.history|;
            var strays := g.boundary.Some? && exists i :: 0 <= i < |g.changed| && !g.boundary.value(g.changed[i]);
            && (EndOf(l, g).RefusedSelfCommit? <==> g.boundary.Some? && moved)
            && (EndOf(l, g).RefusedPaths? <==> !moved && strays)
            && (EndOf(l, g).NothingToCommit? <==> !(g.boundary.Some? && moved) && !strays && g.changed == [])
            && (EndOf(l, g).Committed? <==>
                  !(g.boundary.Some? && moved) && !strays && g.changed != [] && g.verdict.stages && g.verdict.commits)
  {
    if g.boundary.Some? {
      AllowedIff(g.changed, g.boundary.value);
    }
  }

  /** What the gate tells the store: a self-commit exactly when HEAD had moved, naming both HEADs; a refusal of
      paths exactly when there is one, naming every changed path the boundary does not allow as often as it
      changed; a commit with exactly the changed paths; and the committed paths outside the scope. */
  lemma GateTells(l: Ledger, g: GateCall)
    requires l.history != []
    ensures var entered := if g.headBefore == |l.history| then [] else [AgentSelfCommit(g.headBefore, |l.history|)];
            var next := Gate(l, g);
            && (EndOf(l, g).RefusedPaths? ==>
                  && |next.events| == |l.events| + |entered| + 1 && l.events + entered <= next.events
                  && var last := next.events[|next.events| - 1];
                     last.BoundaryRefused?
                     && forall f :: multiset(last.files)[f] == if g.boundary.value(f) then 0 else multiset(g.changed)[f])
            && (!EndOf(l, g).RefusedPaths? && !EndOf(l, g).Committed? ==> next.events == l.events + entered)
            && (EndOf(l, g).Committed? ==>
                  var recorded := l.events + entered + [CommitRecorded(|next.history|, g.changed)];
                  && recorded <= next.events
                  && (|next.events| == |recorded| + 1 <==> exists i :: 0 <= i < |g.changed| && !g.inScope(g.changed[i]))
                  && (|next.events| == |recorded| || |next.events| == |recorded| + 1)
                  && (|next.events| > |recorded| ==>
                        var last := next.events[|next.events| - 1];
                        last.OutOfScopeCommitted?
                        && forall f :: multiset(last.files)[f] == if g.inScope(f) then 0 else multiset(g.changed)[f]))
  {
    hide NoneAbove, TreeWith, Side;
    AllowedIff(g.changed, g.inScope);
    forall f ensures multiset(OutOfScope(g.changed, g.inScope))[f] == if g.inScope(f) then 0 else multiset(g.changed)[f] {
      OutsideIs(g.changed, g.inScope, f);
    }
    if g.boundary.Some? {
      forall f ensures multiset(OutOfScope(g.changed, g.boundary.value))[f]
                       == if g.boundary.value(f) then 0 else multiset(g.changed)[f] {
        OutsideIs(g.changed, g.boundary.value, f);
      }
    }
  }

  // ----- the gate on the repository -----

  datatype GateReceipt = GateReceipt(receipt: Receipt, selfCommitted: bool)

  /** Record the standard events and link of a successful commit. */
  method RecordSuccessfulCommit(store: Store, sha: Option<nat>, files: seq<string>, selfCommit: Option<(nat, nat)>)
    modifies store
    ensures store.events == old(store.events)
              + (if selfCommit.Some? then [AgentSelfCommit(selfCommit.value.0, selfCommit.value.1)] else [])
              + (if sha.Some? then [CommitRecorded(sha.value, files)] else [])
    ensures store.links == old(store.links) + (if sha.Some? then [Link(sha.value, files)] else [])
  {
    if selfCommit.Some? {
      store.events := store.events + [AgentSelfCommit(selfCommit.value.0, selfCommit.value.1)];
    }
    if sha.Some? {
      store.links := store.links + [Link(sha.value, files)];
      store.events := store.events + [CommitRecorded(sha.value, files)];
    }
  }

  /** The gate, undisturbed between reading HEAD and committing. Err stands for a thrown refusal or
      commit failure. */
  method RunCommitGate(repo: Repo, store: Store, g: GateCall) returns (r: Result<GateReceipt>)
    requires repo.Valid() && g.work == repo.work && g.slipped == []
    modifies repo, store
    ensures repo.Valid()
    ensures var l := Ledger(old(repo.history), old(store.links), old(store.events), 0);
            && Ledger(repo.history, store.links, store.events, repo.HeadSha()) == Gate(l, g)
            && (r.Ok? <==> EndOf(l, g).NothingToCommit? || EndOf(l, g).Committed?)
            && (r.Ok? ==>
                  && r.value.selfCommitted == (g.headBefore != |l.history|)
                  && r.value.receipt.error.None? && r.value.receipt.files == g.changed
                  && r.value.receipt.outOfLane == OutOfScope(g.changed, g.inScope)
                  && r.value.receipt.sha == (if EndOf(l, g).Committed? then Some(repo.HeadSha()) else None))
    ensures var allowed := g.boundary.None? || (&& g.headBefore == |old(repo.history)|
                                                && forall i :: 0 <= i < |g.changed| ==> g.boundary.value(g.changed[i]));
            && (!allowed ==> r.Err? && repo.history == old(repo.history) && store.links == old(store.links))
            && (allowed ==> (r.Ok? <==> g.changed == [] || (g.verdict.stages && g.verdict.commits)))
  {
    hide NoneAbove, TreeWith;
    ghost var before := Ledger(repo.history, store.links, store.events, 0);
    BoundaryRefusesIff(before, g);
    var headNow := repo.HeadSha();
    var selfCommitted := headNow != g.headBefore;
    if selfCommitted {
      store.events := store.events + [AgentSelfCommit(g.headBefore, headNow)];
    }
    if g.boundary.Some? {
      if selfCommitted {
        return Err("audit write boundary refused: agent self-commit");
      }
      var _, refused := PartitionByScope(g.changed, g.boundary.value);
      if |refused| > 0 {
        store.events := store.events + [BoundaryRefused(refused)];
        return Err("audit write boundary refused paths");
      }
    }
    r := CommitAllowed(repo, store, g, selfCommitted);
  }

  /** The gate past its boundary: commit the list, record it, flag what is out of scope. */
  method CommitAllowed(repo: Repo, store: Store, g: GateCall, selfCommitted: bool) returns (r: Result<GateReceipt>)
    requires repo.Valid() && g.work == repo.work
    modifies repo, store
    ensures repo.Valid()
    ensures r.Ok? <==> g.changed == [] || (g.verdict.stages && g.verdict.commits)
    ensures r.Err? || g.changed == [] ==> repo.history == old(repo.history) && store.links == old(store.links)
    ensures r.Err? ==> store.events == old(store.events)
    ensures r.Ok? ==>
              var outside := OutOfScope(g.changed, g.inScope);
              var flags := if outside == [] then [] else [OutOfScopeCommitted(outside)];
              && r.value == GateReceipt(Receipt(if g.changed == [] then None else Some(repo.HeadSha()), g.changed, outside, None),
                                        selfCommitted)
              && (if g.changed == [] then store.events == old(store.events)
                  else
                    && repo.history == old(repo.history) + [Commit(g.changed, TreeWith(old(repo.Head()), g.work, g.changed))]
                    && store.links == old(store.links) + [Link(repo.HeadSha(), g.changed)]
                    && store.events == old(store.events) + [CommitRecorded(repo.HeadSha(), g.changed)] + flags)
  {
    hide NoneAbove, TreeWith;
    var _, outOfScope := PartitionByScope(g.changed, g.inScope);
    var committedSha: Option<nat> := None;
    if |g.changed| > 0 {
      var receipt := repo.CommitFiles(g.changed, g.verdict);
      if receipt.sha.None? {
        return Err("commit gate: spine returned no sha");
      }
      committedSha := receipt.sha;
      RecordSuccessfulCommit(store, committedSha, g.changed, None);
    }
    if |outOfScope| > 0 {
      store.events := store.events + [OutOfScopeCommitted(outOfScope)];
    }
    r := Ok(GateReceipt(Receipt(committedSha, g.changed, outOfScope, None), selfCommitted));
  }

  /** Commit an agent's whole diff, flagging what lies outside the scope; failures are reported. */
  method CommitScoped(repo: Repo, changed: seq<string>, inScope: string -> bool, verdict: GitVerdict)
    returns (receipt: Receipt)
    requires repo.Valid()
    modifies repo
    ensures repo.Valid() && receipt.outOfLane == OutOfScope(changed, inScope)
    ensures receipt.Committed() <==> changed != [] && verdict.stages && verdict.commits
    ensures receipt.error.Some? <==> changed != [] && !receipt.Committed()
    ensures receipt.Committed() ==>
              && receipt.files == changed && receipt.sha == Some(repo.HeadSha())
              && repo.history == old(repo.history) + [Commit(changed, TreeWith(old(repo.Head()), repo.work, changed))]
    ensures !receipt.Committed() ==> repo.history == old(repo.history) && receipt.files == []
  {
    var _, outOfScope := PartitionByScope(changed, inScope);
    if |changed| == 0 {
      return NoCommit(outOfScope, None);
    }
    var sha := repo.AddAndCommit(changed, verdict);
    if sha.None? {
      return NoCommit(outOfScope, Some("git commit failed"));
    }
    receipt := Receipt(sha, changed, outOfScope, None);
  }

  // ----- ledger truth over whole runs -----

  /** Links name commits of the history that have a parent, each a later one than the last. */
  ghost predicate LinksNamed(l: Ledger) {
    && (forall i :: 0 <= i < |l.links| ==> 1 < l.links[i].sha <= |l.history|)
    && (forall i, j :: 0 <= i < j < |l.links| ==> l.links[i].sha < l.links[j].sha)
  }

  /** The tree has the working tree's content at and below the listed paths and the parent's everywhere
      else, but for what stood above a file written. */
  ghost predicate ChangesOnly(tree: Tree, parent: Tree, work: Tree, files: seq<string>) {
    && (forall p :: Covered(p, files) ==> SameAt(tree, work, p))
    && (forall p :: !Covered(p, files) && !Displaced(p, work, files) ==> SameAt(tree, parent, p))
    && (forall p :: !Covered(p, files) && Displaced(p, work, files) ==> p !in tree)
  }

  /** What a link says is so: its commit took exactly its listed files from the working tree its gate call
      saw, they are that call's changed files, and its boundary allows them all. */
  ghost predicate LinkTrue(l: Ledger, link: Link, g: GateCall)
    requires 1 < link.sha <= |l.history|
  {
    && link.files == g.changed && l.history[link.sha - 1].files == link.files
    && ChangesOnly(l.history[link.sha - 1].tree, l.history[link.sha - 2].tree, g.work, link.files)
    && (g.boundary.Some? ==> forall i :: 0 <= i < |link.files| ==> g.boundary.value(link.files[i]))
  }

  /** Every link is true of the gate call that made it; `calls` holds those, link by link. */
  ghost predicate LinksTrue(l: Ledger, calls: seq<GateCall>) {
    && LinksNamed(l) && |calls| == |l.links|
    && forall i :: 0 <= i < |l.links| ==> LinkTrue(l, l.links[i], calls[i])
  }

  ghost predicate Linked(l: Ledger, sha: nat) {
    exists i :: 0 <= i < |l.links| && l.links[i].sha == sha
  }

  ghost predicate SelfCommitCovers(l: Ledger, sha: nat) {
    exists i :: 0 <= i < |l.events| && l.events[i].AgentSelfCommit?
                && l.events[i].headBefore < sha <= l.events[i].headNow
  }

  /** A commit is accounted for when a link names it or a self-commit event covers it. */
  ghost predicate Accounted(l: Ledger, sha: nat) {
    Linked(l, sha) || SelfCommitCovers(l, sha)
  }

  /** Every commit after `base` and up to `to` is accounted for. */
  ghost predicate AllAccounted(l: Ledger, base: nat, to: nat) {
    forall sha :: base < sha <= to ==> Accounted(l, sha)
  }

  /** A move of a run: an agent commits on its own, or the gate is called. */
  datatype Move = AgentCommits(commit: Commit) | CallGate(call: GateCall)

  function Apply(l: Ledger, m: Move): (next: Ledger)
    requires l.history != []
    ensures next.history != [] && l.history <= next.history
  {
    match m
    case AgentCommits(c) => l.(history := l.history + [c])
    case CallGate(g) => Gate(l, g)
  }

  function Run(l: Ledger, moves: seq<Move>): (next: Ledger)
    requires l.history != []
    ensures next.history != []
    decreases |moves|
  {
    if moves == [] then l else Run(Apply(l, moves[0]), moves[1..])
  }

  /** A failed or refused gate adds neither commit nor link. */
  lemma FailedGateLeavesNoTrace(l: Ledger, g: GateCall)
    requires l.history != [] && !EndOf(l, g).Committed?
    ensures Gate(l, g).links == l.links && Gate(l, g).history == l.history + g.slipped
  {
  }

  /** The calls that made the links after a move: a gate that commits adds its own. */
  function CallsAfter(l: Ledger, calls: seq<GateCall>, m: Move): seq<GateCall> {
    if m.CallGate? && EndOf(l, m.call).Committed? then calls + [m.call] else calls
  }

  lemma CommittedGateIsTrue(l: Ledger, g: GateCall)
    requires l.history != [] && EndOf(l, g).Committed?
    ensures var next := Gate(l, g);
            && next.links == l.links + [Link(|next.history|, g.changed)] && |next.history| > |l.history|
            && l.history <= next.history
            && LinkTrue(next, next.links[|l.links|], g)
  {
    hide NoneAbove, Covered, Displaced;
    if g.boundary.Some? {
      AllowedIff(g.changed, g.boundary.value);
    }
    var next := Gate(l, g);
    var parent := (l.history + g.slipped)[|l.history + g.slipped| - 1].tree;
    assert next.history == l.history + g.slipped + [Commit(g.changed, TreeWith(parent, g.work, g.changed))];
    assert ChangesOnly(TreeWith(parent, g.work, g.changed), parent, g.work, g.changed);
  }

  /** A gate's commit takes exactly its listed files, all within its boundary, from the working tree the gate
      saw, and no later move makes a link untrue. */
  lemma {:induction false} ApplyKeepsLinksTrue(l: Ledger, calls: seq<GateCall>, m: Move)
    requires l.history != [] && LinksTrue(l, calls)
    ensures LinksTrue(Apply(l, m), CallsAfter(l, calls, m))
  {
    hide ChangesOnly, NoneAbove, TreeWith;
    var next := Apply(l, m);
    if m.CallGate? && EndOf(l, m.call).Committed? {
      CommittedGateIsTrue(l, m.call);
    }
    forall i | 0 <= i < |l.links| ensures next.links[i] == l.links[i] && LinkTrue(next, next.links[i], calls[i]) {
      assert LinkTrue(l, l.links[i], calls[i]);
    }
  }

  lemma {:induction false} AccountedGrows(l: Ledger, next: Ledger, sha: nat)
    requires Accounted(l, sha) && l.links <= next.links && l.events <= next.events
    ensures Accounted(next, sha)
  {
    if Linked(l, sha) {
      var i :| 0 <= i < |l.links| && l.links[i].sha == sha;
      assert next.links[i].sha == sha;
    } else {
      var i :| 0 <= i < |l.events| && l.events[i].AgentSelfCommit?
               && l.events[i].headBefore < sha <= l.events[i].headNow;
      assert next.events[i] == l.events[i];
    }
  }

  lemma {:induction false} AccountedBefore(l: Ledger, g: GateCall, sha: nat)
    requires l.history != [] && LinksNamed(l) && g.headBefore <= |l.history|
    requires Accounted(Gate(l, g), sha) && sha <= |l.history| + |g.slipped|
    ensures Accounted(l, sha) || g.headBefore < sha <= |l.history|
  {
    var next := Gate(l, g);
    if Linked(next, sha) {
      var i :| 0 <= i < |next.links| && next.links[i].sha == sha;
      assert i < |l.links| ==> l.links[i].sha == sha;
    } else {
      var i :| 0 <= i < |next.events| && next.events[i].AgentSelfCommit?
               && next.events[i].headBefore < sha <= next.events[i].headNow;
      assert i < |l.events| ==> l.events[i] == next.events[i];
    }
  }

  /** After a gate call everything up to HEAD is accounted for exactly when nobody committed while the
      gate was at work and nothing unaccounted lies between what the last call left and the HEAD this
      caller captured. */
  lemma {:induction false} GateAccountsIff(l: Ledger, g: GateCall, base: nat)
    requires l.history != [] && LinksNamed(l) && base <= l.seen <= |l.history| && g.headBefore <= |l.history|
    requires AllAccounted(l, base, l.seen)
    requires forall i :: 0 <= i < |l.events| && l.events[i].AgentSelfCommit? ==> l.events[i].headNow <= |l.history|
    ensures var next := Gate(l, g);
            AllAccounted(next, base, next.seen)
            <==> g.slipped == [] && AllAccounted(l, l.seen, g.headBefore)
  {
    var next := Gate(l, g);
    if g.slipped == [] && AllAccounted(l, l.seen, g.headBefore) {
      forall sha | base < sha <= next.seen ensures Accounted(next, sha) {
        if sha <= l.seen || sha <= g.headBefore {
          AccountedGrows(l, next, sha);
        } else if sha <= |l.history| {
          assert next.events[|l.events|] == AgentSelfCommit(g.headBefore, |l.history|);
          assert SelfCommitCovers(next, sha);
        } else {
          assert next.links[|l.links|].sha == sha;
          assert Linked(next, sha);
        }
      }
    }
    if AllAccounted(next, base, next.seen) {
      if g.slipped != [] {
        var sha := |l.history| + 1;
        assert Accounted(next, sha);
        AccountedBefore(l, g, sha);
        NothingBeyondHead(l, sha);
        assert false;
      }
      forall sha | l.seen < sha <= g.headBefore ensures Accounted(l, sha) {
        assert Accounted(next, sha);
        AccountedBefore(l, g, sha);
      }
    }
  }

  lemma NothingBeyondHead(l: Ledger, sha: nat)
    requires LinksNamed(l) && sha > |l.history|
    requires forall i :: 0 <= i < |l.events| && l.events[i].AgentSelfCommit? ==> l.events[i].headNow <= |l.history|
    ensures !Accounted(l, sha)
  {
  }

  /** What every move of a run keeps. */
  ghost predicate LedgerTrue(l: Ledger, calls: seq<GateCall>, base: nat) {
    && l.history != [] && base <= l.seen <= |l.history|
    && LinksTrue(l, calls)
    && AllAccounted(l, base, l.seen)
    && forall i :: 0 <= i < |l.events| && l.events[i].AgentSelfCommit? ==> l.events[i].headNow <= |l.history|
  }

  /** Every gate call is handed a HEAD no later than the one the last call left, and runs undisturbed. */
  ghost predicate Chained(l: Ledger, moves: seq<Move>)
    requires l.history != []
    decreases |moves|
  {
    moves == [] || (
      && (moves[0].CallGate? ==> moves[0].call.headBefore <= l.seen && moves[0].call.slipped == [])
      && Chained(Apply(l, moves[0]), moves[1..]))
  }

  /** The calls that made the links after a run. */
  function CallsOf(l: Ledger, calls: seq<GateCall>, moves: seq<Move>): seq<GateCall>
    requires l.history != []
    decreases |moves|
  {
    if moves == [] then calls else CallsOf(Apply(l, moves[0]), CallsAfter(l, calls, moves[0]), moves[1..])
  }

  /** Ledger truth: along any chained run, whatever agents commit and however calls end, every link's commit
      took exactly its listed files, all within its call's boundary, from the working tree its gate saw, and every commit up to the last gate
      call is linked or covered by a self-commit event. */
  lemma {:induction false} RunKeepsLedgerTrue(l: Ledger, calls: seq<GateCall>, moves: seq<Move>, base: nat)
    requires LedgerTrue(l, calls, base) && Chained(l, moves)
    ensures LedgerTrue(Run(l, moves), CallsOf(l, calls, moves), base)
    decreases |moves|
  {
    hide LinkTrue, TreeWith, NoneAbove;
    if moves != [] {
      var m := moves[0];
      var next := Apply(l, m);
      ApplyKeepsLinksTrue(l, calls, m);
      if m.CallGate? {
        GateAccountsIff(l, m.call, base);
      } else {
        forall sha | base < sha <= l.seen ensures Accounted(next, sha) {
          AccountedGrows(l, next, sha);
        }
      }
      RunKeepsLedgerTrue(next, CallsAfter(l, calls, m), moves[1..], base);
    }
  }

  /** An agent commit made while the gate is committing is never accounted for by that call. */
  lemma SlippedCommitIsLost()
    ensures var l := Ledger([Commit([], map[])], [], [], 1);
            var g := GateCall(1, map["a" := "x"], ["a"], _ => true, None, GitVerdict(true, true), [Commit(["b"], map[])]);
            LedgerTrue(l, [], 1) && !AllAccounted(Gate(l, g), 1, Gate(l, g).seen)
  {
    var l := Ledger([Commit([], map[])], [], [], 1);
    var g := GateCall(1, map["a" := "x"], ["a"], _ => true, None, GitVerdict(true, true), [Commit(["b"], map[])]);
    GateAccountsIff(l, g, 1);
  }
}

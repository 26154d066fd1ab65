/**
 Follow edges and the denormalised counters on the user rows, under follow, unfollow and block.
 Each request is one transaction.
 */
module FollowCounts {
  import opened Common

  datatype Edge = Edge(follower: nat, followed: nat)

  datatype Graph = Graph(
    edges: set<Edge>, followers: map<nat, int>, following: map<nat, int>, blocks: set<Edge>, mutes: set<Edge>)

  datatype Step =
    | Follow(user: nat, target: nat)
    | Unfollow(user: nat, target: nat)
    | Block(user: nat, target: nat)

  // ---- the steps ----

  predicate Accepted(g: Graph, user: nat, target: nat) {
    user in g.following && user in g.followers && target in g.following && target in g.followers && user != target
  }

  function Lowered(count: int): int {
    if count - 1 < 0 then 0 else count - 1
  }

  function AddEdge(g: Graph, e: Edge): Graph
    requires Accepted(g, e.follower, e.followed)
  {
    if e in g.edges then g
    else g.(edges := g.edges + {e},
            following := g.following[e.follower := g.following[e.follower] + 1],
            followers := g.followers[e.followed := g.followers[e.followed] + 1])
  }

  function DropEdge(g: Graph, e: Edge): Graph
    requires Accepted(g, e.follower, e.followed)
  {
    if e !in g.edges then g
    else g.(edges := g.edges - {e},
            following := g.following[e.follower := Lowered(g.following[e.follower])],
            followers := g.followers[e.followed := Lowered(g.followers[e.followed])])
  }

  /** Unknown users and requests about oneself are rejected. */
  function TakeStep(g: Graph, step: Step): Graph {
    if !Accepted(g, step.user, step.target) then g
    else
      var out, back := Edge(step.user, step.target), Edge(step.target, step.user);
      match step
      case Follow(_, _) => AddEdge(g, out)
      case Unfollow(_, _) => DropEdge(g, out)
      case Block(_, _) => DropEdge(DropEdge(g, out), back).(blocks := g.blocks + {out}, mutes := g.mutes - {out})
  }

  function Run(g: Graph, steps: seq<Step>): Graph {
    if steps == [] then g else TakeStep(Run(g, steps[..|steps| - 1]), steps[|steps| - 1])
  }

  function Start(users: set<nat>): Graph {
    Graph({}, map u | u in users :: 0, map u | u in users :: 0, {}, {})
  }

  // ---- counters are cardinalities ----

  ghost function Out(edges: set<Edge>, u: nat): set<Edge> {
    set e | e in edges && e.follower == u
  }

  ghost function In(edges: set<Edge>, u: nat): set<Edge> {
    set e | e in edges && e.followed == u
  }

  /** The counters of `u` are the numbers of its outgoing and incoming edges. */
  ghost predicate Counted(g: Graph, u: nat) {
    && (u in g.following <==> u in g.followers)
    && (u in g.following ==> g.following[u] == |Out(g.edges, u)| && g.followers[u] == |In(g.edges, u)|)
  }

  ghost predicate AllCounted(g: Graph) {
    forall u :: Counted(g, u)
  }

  lemma EdgeAdded(edges: set<Edge>, e: Edge, u: nat)
    requires e !in edges
    ensures |Out(edges + {e}, u)| == |Out(edges, u)| + Weigh(e.follower == u)
    ensures |In(edges + {e}, u)| == |In(edges, u)| + Weigh(e.followed == u)
  {
    OutAdded(edges, e, u);
    var into := if e.followed == u then {e} else {};
    assert In(edges + {e}, u) == In(edges, u) + into;
  }

  lemma OutAdded(edges: set<Edge>, e: Edge, u: nat)
    requires e !in edges
    ensures |Out(edges + {e}, u)| == |Out(edges, u)| + Weigh(e.follower == u)
  {
    var outOf := if e.follower == u then {e} else {};
    assert Out(edges + {e}, u) == Out(edges, u) + outOf;
  }

  lemma AddKeepsCounted(g: Graph, e: Edge, u: nat)
    requires Accepted(g, e.follower, e.followed) && Counted(g, u)
    ensures Counted(AddEdge(g, e), u)
  {
    if e !in g.edges {
      EdgeAdded(g.edges, e, u);
    }
  }

  /** Dropping an edge keeps the counters right, and the floor at zero is not used. */
  lemma DropKeepsCounted(g: Graph, e: Edge, u: nat)
    requires Accepted(g, e.follower, e.followed) && Counted(g, u) && Counted(g, e.follower) && Counted(g, e.followed)
    ensures Counted(DropEdge(g, e), u)
    ensures e in g.edges ==> g.following[e.follower] >= 1 && g.followers[e.followed] >= 1
  {
    if e in g.edges {
      assert g.edges - {e} + {e} == g.edges;
      EdgeAdded(g.edges - {e}, e, u);
      EdgeAdded(g.edges - {e}, e, e.follower);
      EdgeAdded(g.edges - {e}, e, e.followed);
    }
  }

  lemma DropKeepsAllCounted(g: Graph, e: Edge)
    requires Accepted(g, e.follower, e.followed) && AllCounted(g)
    ensures AllCounted(DropEdge(g, e))
  {
    forall u
      ensures Counted(DropEdge(g, e), u)
    {
      DropKeepsCounted(g, e, u);
    }
  }

  lemma StepKeepsCounted(g: Graph, step: Step)
    requires AllCounted(g)
    ensures AllCounted(TakeStep(g, step))
  {
    if Accepted(g, step.user, step.target) {
      var out, back := Edge(step.user, step.target), Edge(step.target, step.user);
      match step
      case Follow(_, _) =>
        forall u
          ensures Counted(AddEdge(g, out), u)
        {
          AddKeepsCounted(g, out, u);
        }
      case Unfollow(_, _) => DropKeepsAllCounted(g, out);
      case Block(_, _) =>
        DropKeepsAllCounted(g, out);
        DropKeepsAllCounted(DropEdge(g, out), back);
        var severed := DropEdge(DropEdge(g, out), back);
        assert forall u :: Counted(severed, u) ==> Counted(TakeStep(g, step), u);
    }
  }

  /** In every run each counter is the number of edges it stands for. */
  lemma {:induction false} EveryRunCounts(users: set<nat>, steps: seq<Step>)
    ensures AllCounted(Run(Start(users), steps))
  {
    if steps == [] {
      forall u
        ensures Counted(Start(users), u)
      {
        assert Out({}, u) == {} && In({}, u) == {};
      }
    } else {
      EveryRunCounts(users, steps[..|steps| - 1]);
      StepKeepsCounted(Run(Start(users), steps[..|steps| - 1]), steps[|steps| - 1]);
    }
  }

  /** Repeating a request changes nothing. */
  lemma RepeatChangesNothing(g: Graph, step: Step)
    ensures TakeStep(TakeStep(g, step), step) == TakeStep(g, step)
  {
    if step.Block? && Accepted(g, step.user, step.target) {
      var out := Edge(step.user, step.target);
      assert g.blocks + {out} + {out} == g.blocks + {out} && g.mutes - {out} - {out} == g.mutes - {out};
    }
  }

  /** Unfollowing takes back a follow completely, exactly when the follow was new. */
  lemma UnfollowUndoesIff(users: set<nat>, steps: seq<Step>, user: nat, target: nat)
    requires Accepted(Run(Start(users), steps), user, target)
    ensures var g := Run(Start(users), steps);
            TakeStep(TakeStep(g, Follow(user, target)), Unfollow(user, target)) == g <==> Edge(user, target) !in g.edges
  {
    var g, e := Run(Start(users), steps), Edge(user, target);
    EveryRunCounts(users, steps);
    assert Counted(g, user) && Counted(g, target);
    if e !in g.edges {
      assert g.edges + {e} - {e} == g.edges;
      var g' := DropEdge(AddEdge(g, e), e);
      assert g'.following == g.following && g'.followers == g.followers;
    }
  }

  /** A follow adds exactly its own edge and counts it once, on the two users only. */
  lemma FollowAddsEdge(g: Graph, user: nat, target: nat, e: Edge, u: nat)
    requires Accepted(g, user, target) && u in g.followers && u in g.following
    ensures var g' := TakeStep(g, Follow(user, target));
            var added := Weigh(Edge(user, target) !in g.edges);
            && (e in g'.edges <==> e in g.edges || e == Edge(user, target))
            && u in g'.following && g'.following[u] == g.following[u] + (if u == user then added else 0)
            && u in g'.followers && g'.followers[u] == g.followers[u] + (if u == target then added else 0)
            && g'.blocks == g.blocks && g'.mutes == g.mutes
  {
  }

  /** An unfollow removes exactly its own edge. */
  lemma UnfollowRemovesEdge(g: Graph, user: nat, target: nat, e: Edge)
    requires Accepted(g, user, target)
    ensures var g' := TakeStep(g, Unfollow(user, target));
            && (e in g'.edges <==> e in g.edges && e != Edge(user, target))
            && g'.blocks == g.blocks && g'.mutes == g.mutes
  {
  }

  /** A block removes the edges of both directions, records itself and lifts its own mute, and touches no other pair. */
  lemma BlockSevers(g: Graph, user: nat, target: nat, e: Edge)
    requires Accepted(g, user, target)
    ensures var g' := TakeStep(g, Block(user, target));
            var own := Edge(user, target);
            && (e in g'.edges <==> e in g.edges && e != own && e != Edge(target, user))
            && (e in g'.blocks <==> e in g.blocks || e == own)
            && (e in g'.mutes <==> e in g.mutes && e != own)
  {
  }

  /** The two users are there and differ. */
  ghost predicate Pair(users: set<nat>, user: nat, target: nat) {
    user in users && target in users && user != target
  }

  lemma StepKeepsUsers(g: Graph, step: Step)
    ensures TakeStep(g, step).followers.Keys == g.followers.Keys && TakeStep(g, step).following.Keys == g.following.Keys
  {
  }

  lemma {:induction false} RunKeepsUsers(users: set<nat>, steps: seq<Step>)
    ensures Run(Start(users), steps).followers.Keys == users && Run(Start(users), steps).following.Keys == users
  {
    if steps != [] {
      RunKeepsUsers(users, steps[..|steps| - 1]);
      StepKeepsUsers(Run(Start(users), steps[..|steps| - 1]), steps[|steps| - 1]);
    }
  }

  /** In every run a request is accepted exactly for two different existing users, and otherwise changes nothing. */
  lemma AcceptedIff(users: set<nat>, steps: seq<Step>, step: Step)
    ensures var g := Run(Start(users), steps);
            && (Accepted(g, step.user, step.target) <==> Pair(users, step.user, step.target))
            && (!Pair(users, step.user, step.target) ==> TakeStep(g, step) == g)
  {
    RunKeepsUsers(users, steps);
  }

  /** An unfollow of the edge, or a block between its users in either direction. */
  predicate Removes(step: Step, e: Edge) {
    || step == Unfollow(e.follower, e.followed)
    || step == Block(e.follower, e.followed) || step == Block(e.followed, e.follower)
  }

  /** The last request that concerns the edge is a follow. */
  predicate LastIsFollow(steps: seq<Step>, e: Edge) {
    steps != [] &&
    var last := steps[|steps| - 1];
    last == Follow(e.follower, e.followed) || (!Removes(last, e) && LastIsFollow(steps[..|steps| - 1], e))
  }

  lemma StepOnEdge(g: Graph, step: Step, e: Edge)
    requires Accepted(g, e.follower, e.followed)
    ensures e in TakeStep(g, step).edges <==>
            step == Follow(e.follower, e.followed) || (e in g.edges && !Removes(step, e))
  {
  }

  /** After any run two users are connected exactly when the last request that concerns their edge is a follow. */
  lemma {:induction false} EdgeTellsLastRequest(users: set<nat>, steps: seq<Step>, e: Edge)
    ensures e in Run(Start(users), steps).edges <==> Pair(users, e.follower, e.followed) && LastIsFollow(steps, e)
  {
    if steps != [] {
      var before, last := steps[..|steps| - 1], steps[|steps| - 1];
      EdgeTellsLastRequest(users, before, e);
      AcceptedIff(users, before, Follow(e.follower, e.followed));
      if Pair(users, e.follower, e.followed) {
        StepOnEdge(Run(Start(users), before), last, e);
      }
    }
  }

  ghost predicate Natural(counts: map<nat, int>) {
    forall u :: u in counts ==> counts[u] >= 0
  }

  /** Also on counters that have drifted, the floor keeps them from going negative. */
  lemma CountersStayNatural(g: Graph, step: Step)
    requires Natural(g.followers) && Natural(g.following)
    ensures Natural(TakeStep(g, step).followers) && Natural(TakeStep(g, step).following)
  {
  }

  // ---- removing a user ----

  function FollowersOf(edges: set<Edge>, u: nat): set<nat> {
    set e | e in edges && e.followed == u :: e.follower
  }

  function FollowedBy(edges: set<Edge>, u: nat): set<nat> {
    set e | e in edges && e.follower == u :: e.followed
  }

  /** One update statement: the counts of the given users are lowered, floored at zero. */
  function LoweredFor(counts: map<nat, int>, users: set<nat>): map<nat, int> {
    map v | v in counts :: if v in users then Lowered(counts[v]) else counts[v]
  }

  function Without(edges: set<Edge>, u: nat): set<Edge> {
    set e | e in edges && e.follower != u && e.followed != u
  }

  /**
   The statements as they stand: the user follows one less, the user's followers have a follower
   less, and those whom the user follows follow one less; then every edge of the user goes.
   */
  function RemoveUser(g: Graph, u: nat): Graph {
    g.(edges := Without(g.edges, u),
       followers := LoweredFor(g.followers, FollowersOf(g.edges, u)),
       following := LoweredFor(LoweredFor(g.following, {u}), FollowedBy(g.edges, u)))
  }

  lemma NeighboursAre(edges: set<Edge>, u: nat, v: nat)
    ensures v in FollowersOf(edges, u) <==> Edge(v, u) in edges
    ensures v in FollowedBy(edges, u) <==> Edge(u, v) in edges
  {
    if Edge(v, u) in edges {
      assert Edge(v, u).follower == v;
    }
    if Edge(u, v) in edges {
      assert Edge(u, v).followed == v;
    }
  }

  lemma OutLeft(edges: set<Edge>, u: nat, v: nat)
    requires u != v
    ensures |Out(Without(edges, u), v)| == |Out(edges, v)| - Weigh(Edge(v, u) in edges)
  {
    var gone := if Edge(v, u) in edges then {Edge(v, u)} else {};
    assert Out(edges, v) == Out(Without(edges, u), v) + gone;
  }

  lemma InLeft(edges: set<Edge>, u: nat, v: nat)
    requires u != v
    ensures |In(Without(edges, u), v)| == |In(edges, v)| - Weigh(Edge(u, v) in edges)
  {
    var gone := if Edge(u, v) in edges then {Edge(u, v)} else {};
    assert In(edges, v) == In(Without(edges, u), v) + gone;
  }

  /**
   Another user's counters stay right exactly when it and the removed user follow each other, or
   neither the other.
   */
  lemma RemovalKeepsCountedIff(g: Graph, u: nat, v: nat)
    requires AllCounted(g) && v in g.followers && u != v
    ensures Counted(RemoveUser(g, u), v) <==> (Edge(u, v) in g.edges <==> Edge(v, u) in g.edges)
  {
    assert Counted(g, v);
    NeighboursAre(g.edges, u, v);
    OutLeft(g.edges, u, v);
    InLeft(g.edges, u, v);
  }

  /** One follow, and then the follower leaves: the other keeps a follower that is gone. */
  lemma RemovalLeavesFollower()
    ensures var g := RemoveUser(Run(Start({1, 2}), [Follow(1, 2)]), 1);
            2 in g.followers && g.followers[2] == 1 && g.edges == {}
  {
    assert [Follow(1, 2)][..0] == [];
    assert Run(Start({1, 2}), []) == Start({1, 2});
    var g := TakeStep(Start({1, 2}), Follow(1, 2));
    NeighboursAre(g.edges, 1, 2);
  }

  // ---- the tables ----

  class FollowStore {
    var edges: set<Edge>
    var followers: map<nat, int>
    var following: map<nat, int>
    var blocks: set<Edge>
    var mutes: set<Edge>

    ghost function View(): Graph
      reads this
    {
      Graph(edges, followers, following, blocks, mutes)
    }

    method FollowUser(user: nat, target: nat)
      modifies this
      ensures View() == TakeStep(old(View()), Follow(user, target))
      ensures edges == old(edges) + if old(Accepted(View(), user, target)) then {Edge(user, target)} else {}
      ensures old(AllCounted(View())) ==> AllCounted(View())
    {
      if AllCounted(View()) {
        StepKeepsCounted(View(), Follow(user, target));
      }
      var known := BothKnown(user, target);
      if !known {
        return;
      }
      var inserted := Edge(user, target) !in edges;
      edges := edges + {Edge(user, target)};
      if inserted {
        following := following[user := following[user] + 1];
        followers := followers[target := followers[target] + 1];
      } else {
        assert edges == old(edges);
      }
    }

    method UnfollowUser(user: nat, target: nat)
      modifies this
      ensures View() == TakeStep(old(View()), Unfollow(user, target))
      ensures edges == old(edges) - if old(Accepted(View(), user, target)) then {Edge(user, target)} else {}
      ensures old(AllCounted(View())) ==> AllCounted(View())
    {
      if AllCounted(View()) {
        StepKeepsCounted(View(), Unfollow(user, target));
      }
      var known := BothKnown(user, target);
      if known {
        Sever(user, target);
      }
    }

    method BlockUser(user: nat, target: nat)
      modifies this
      ensures View() == TakeStep(old(View()), Block(user, target))
      ensures old(AllCounted(View())) ==> AllCounted(View())
    {
      if AllCounted(View()) {
        StepKeepsCounted(View(), Block(user, target));
      }
      var known := BothKnown(user, target);
      if known {
        blocks := blocks + {Edge(user, target)};
        Sever(user, target);
        Sever(target, user);
        mutes := mutes - {Edge(user, target)};
      }
    }

    method RemoveUserFollowEdges(u: nat)
      modifies this`edges, this`followers, this`following
      ensures View() == RemoveUser(old(View()), u)
    {
      following := LoweredFor(following, {u});
      followers := LoweredFor(followers, FollowersOf(edges, u));
      following := LoweredFor(following, FollowedBy(edges, u));
      edges := Without(edges, u);
    }

    method BothKnown(user: nat, target: nat) returns (known: bool)
      ensures known == Accepted(View(), user, target)
    {
      known := user in following && user in followers && target in following && target in followers && user != target;
    }

    /** Deletes one edge and lowers both counters when it existed. */
    method Sever(a: nat, b: nat)
      requires Accepted(View(), a, b)
      modifies this`edges, this`followers, this`following
      ensures View() == DropEdge(old(View()), Edge(a, b))
    {
      var deleted := Edge(a, b) in edges;
      edges := edges - {Edge(a, b)};
      if deleted {
        following := following[a := if following[a] - 1 < 0 then 0 else following[a] - 1];
        followers := followers[b := if followers[b] - 1 < 0 then 0 else followers[b] - 1];
      } else {
        assert edges == old(edges);
      }
    }
  }
}

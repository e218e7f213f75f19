/**
 * The collision and scoring rules of one tick, as pure functions over the
 * live potions and ghosts: which ones survive the tick, how many points they
 * give, and whether the player is caught.
 */
module Scoring {
  import opened Geometry
  import opened Entities

  /** Points for catching a potion and for defeating a ghost. */
  const POTION_POINTS: nat := 1
  const GHOST_POINTS: nat := 5

  ghost predicate Distinct<T>(s: seq<T>)
  {
    forall i, j :: 0 <= i < j < |s| ==> s[i] != s[j]
  }

  lemma DistinctTail<T>(s: seq<T>)
    requires Distinct(s) && s != []
    ensures Distinct(s[1..]) && s[0] !in s[1..]
  {
    var tail := s[1..];
    forall i, j | 0 <= i < j < |tail| ensures tail[i] != tail[j] {
      assert tail[i] == s[i + 1] && tail[j] == s[j + 1];
    }
    forall j | 0 <= j < |tail| ensures tail[j] != s[0] {
      assert tail[j] == s[j + 1];
    }
  }

  lemma DistinctPrepend<T>(x: T, s: seq<T>)
    requires Distinct(s) && x !in s
    ensures Distinct([x] + s)
  {
    var r := [x] + s;
    forall i, j | 0 <= i < j < |r| ensures r[i] != r[j] {
      assert r[j] == s[j - 1];
      if i > 0 {
        assert r[i] == s[i - 1];
      }
    }
  }

  /** Removal of the first occurrence of x, as a list's remove does; the
      element must be present. */
  function RemoveFirst<T(==)>(s: seq<T>, x: T): (r: seq<T>)
    requires x in s
    ensures |r| == |s| - 1
  {
    if s[0] == x then s[1..] else [s[0]] + RemoveFirst(s[1..], x)
  }

  /** Exactly one occurrence of x goes, and nothing else. */
  lemma {:induction false} RemoveFirstCounts<T>(s: seq<T>, x: T)
    requires x in s
    ensures multiset(RemoveFirst(s, x)) == multiset(s) - multiset{x}
  {
    assert s == [s[0]] + s[1..];
    if s[0] != x {
      RemoveFirstCounts(s[1..], x);
    }
  }

  /** Removing an element that does not occur before the given position
      removes exactly that position. */
  lemma {:induction false} RemoveFirstAt<T>(a: seq<T>, x: T, b: seq<T>)
    requires x !in a
    ensures RemoveFirst(a + [x] + b, x) == a + b
  {
    if a != [] {
      assert (a + [x] + b)[1..] == a[1..] + [x] + b;
      RemoveFirstAt(a[1..], x, b);
    }
  }

  lemma DistinctWithout<T>(a: seq<T>, x: T, b: seq<T>)
    requires Distinct(a + [x] + b)
    ensures Distinct(a + b) && x !in a && x !in b
  {
    var s := a + [x] + b;
    forall i, j | 0 <= i < j < |a + b|
      ensures (a + b)[i] != (a + b)[j]
    {
      var i' := if i < |a| then i else i + 1;
      var j' := if j < |a| then j else j + 1;
      assert (a + b)[i] == s[i'] && (a + b)[j] == s[j'];
    }
    forall i | 0 <= i < |a| ensures a[i] != x {
      assert s[i] == a[i] && s[|a|] == x;
    }
    forall i | 0 <= i < |b| ensures b[i] != x {
      assert s[|a| + 1 + i] == b[i] && s[|a|] == x;
    }
  }

  // ------------------------------------------------------------- potions

  /** What the potion pass leaves: the potions still live, in order and in
      their fallen state, and the number caught. */
  datatype Collected = Collected(kept: seq<Potion>, picked: nat)

  /** The potion is caught once it has fallen onto the player's box pb. */
  predicate Caught(p: Potion, pb: Box)
  {
    Overlaps(Fall(p).Box(), pb)
  }

  /** The potion is missed once it has fallen below the bottom edge without
      being caught. */
  predicate Missed(p: Potion, pb: Box)
  {
    !Caught(p, pb) && Fall(p).y > HEIGHT as real
  }

  /** The potion pass: every potion falls, then one touching the player is
      caught, one below the bottom edge is missed, and the rest stay. */
  function CollectPotions(ps: seq<Potion>, pb: Box): (c: Collected)
    ensures c.picked + |c.kept| <= |ps|
  {
    if ps == [] then Collected([], 0)
    else
      var rest := CollectPotions(ps[1..], pb);
      if Caught(ps[0], pb) then Collected(rest.kept, rest.picked + 1)
      else if Missed(ps[0], pb) then rest
      else Collected([Fall(ps[0])] + rest.kept, rest.picked)
  }

  /** The pass can be taken one potion at a time, in order. */
  lemma {:induction false} CollectAppend(ps: seq<Potion>, p: Potion, pb: Box)
    ensures CollectPotions(ps + [p], pb)
         == var c := CollectPotions(ps, pb);
            if Caught(p, pb) then Collected(c.kept, c.picked + 1)
            else if Missed(p, pb) then c
            else Collected(c.kept + [Fall(p)], c.picked)
  {
    if ps == [] {
      assert [p][1..] == [];
    } else {
      assert (ps + [p])[1..] == ps[1..] + [p];
      CollectAppend(ps[1..], p, pb);
    }
  }

  /** The potions that stay are exactly the fallen potions that were neither
      caught nor missed. */
  lemma {:induction false} KeptExactly(ps: seq<Potion>, pb: Box, q: Potion)
    ensures q in CollectPotions(ps, pb).kept
        <==> exists p :: p in ps && !Caught(p, pb) && !Missed(p, pb) && q == Fall(p)
  {
    if ps != [] {
      KeptExactly(ps[1..], pb, q);
      assert forall p :: p in ps <==> p == ps[0] || p in ps[1..];
    }
  }

  /** Each potion touching the player is caught once: the catch count is the
      number of positions whose potion lands on the player. */
  lemma {:induction false} PickedCountsCaught(ps: seq<Potion>, pb: Box)
    ensures CollectPotions(ps, pb).picked == |set i | 0 <= i < |ps| && Caught(ps[i], pb)|
    decreases |ps|
  {
    if ps != [] {
      var init := ps[..|ps| - 1];
      var last := ps[|ps| - 1];
      assert ps == init + [last];
      CollectAppend(init, last, pb);
      PickedCountsCaught(init, pb);
      var all := set i | 0 <= i < |ps| && Caught(ps[i], pb);
      var before := set i | 0 <= i < |init| && Caught(init[i], pb);
      if Caught(last, pb) {
        assert all == before + {|init|};
      } else {
        assert all == before;
      }
    }
  }

  /** The pass keeps every live potion valid. */
  lemma {:induction false} KeptValid(ps: seq<Potion>, pb: Box)
    requires forall p <- ps :: p.Valid()
    ensures forall q <- CollectPotions(ps, pb).kept :: q.Valid()
  {
    if ps != [] {
      KeptValid(ps[1..], pb);
    }
  }

  // -------------------------------------------------------------- ghosts

  /** What the ghost pass leaves: the ghosts still live, the points won, and
      whether the player was caught. */
  datatype Fight = Fight(kept: seq<Ghost>, gained: nat, lost: bool)

  /** The ghost pass, in order: a ghost touching an attacking player is
      defeated; the first ghost touching a player who is not attacking ends
      the game and no later ghost is looked at. */
  function ResolveGhosts(gs: seq<Ghost>, pb: Box, attacking: bool): (f: Fight)
    reads gs
    ensures forall g <- f.kept :: g in gs
    ensures f.gained % GHOST_POINTS == 0
  {
    if gs == [] then Fight([], 0, false)
    else if Overlaps(pb, gs[0].Box()) then
      if attacking then
        var rest := ResolveGhosts(gs[1..], pb, attacking);
        Fight(rest.kept, rest.gained + GHOST_POINTS, rest.lost)
      else
        Fight(gs, 0, true)
    else
      var rest := ResolveGhosts(gs[1..], pb, attacking);
      Fight([gs[0]] + rest.kept, rest.gained, rest.lost)
  }

  /** The pass over the ghosts after a prefix, given the outcome of the
      prefix: the ghosts it kept and the points it won. */
  function Join(kept: seq<Ghost>, gained: nat, rest: Fight): Fight
  {
    Fight(kept + rest.kept, gained + rest.gained, rest.lost)
  }

  lemma JoinJoin(a: seq<Ghost>, x: nat, b: seq<Ghost>, y: nat, rest: Fight)
    ensures Join(a, x, Join(b, y, rest)) == Join(a + b, x + y, rest)
  {
    assert a + (b + rest.kept) == (a + b) + rest.kept;
  }

  /** One step of the pass: the outcome for the first ghost and the rest. */
  lemma ResolveFirst(gs: seq<Ghost>, pb: Box, attacking: bool)
    requires gs != []
    ensures ResolveGhosts(gs, pb, attacking)
         == if !Overlaps(pb, gs[0].Box()) then Join([gs[0]], 0, ResolveGhosts(gs[1..], pb, attacking))
            else if attacking then Join([], GHOST_POINTS, ResolveGhosts(gs[1..], pb, attacking))
            else Fight(gs, 0, true)
  {
  }

  /** The pass from position k on, in terms of the ghost at k and the pass
      from k + 1 on. */
  lemma ResolveAt(gs: seq<Ghost>, k: nat, pb: Box, attacking: bool)
    requires k < |gs|
    ensures ResolveGhosts(gs[k..], pb, attacking)
         == var rest := ResolveGhosts(gs[k + 1..], pb, attacking);
            if !Overlaps(pb, gs[k].Box()) then Join([gs[k]], 0, rest)
            else if attacking then Join([], GHOST_POINTS, rest)
            else Fight(gs[k..], 0, true)
  {
    assert gs[k..][1..] == gs[k + 1..];
    ResolveFirst(gs[k..], pb, attacking);
  }

  /** Removing the ghost at position k from the live list, which holds the
      ghosts kept so far followed by the ghosts from k on, drops exactly that
      position. */
  lemma RemoveVisited(gs: seq<Ghost>, k: nat, kept: seq<Ghost>)
    requires Distinct(gs) && k < |gs|
    requires forall g <- kept :: g in gs[..k]
    ensures RemoveFirst(kept + gs[k..], gs[k]) == kept + gs[k + 1..]
  {
    assert gs == gs[..k] + [gs[k]] + gs[k + 1..];
    DistinctWithout(gs[..k], gs[k], gs[k + 1..]);
    assert gs[k..] == [gs[k]] + gs[k + 1..];
    assert kept + gs[k..] == kept + [gs[k]] + gs[k + 1..];
    RemoveFirstAt(kept, gs[k], gs[k + 1..]);
  }

  /** The state of a walk over gs that has looked at the first k ghosts:
      live is the list as the walk has left it (the ghosts kept so far,
      then those not yet looked at), and kept and gained are the outcome of
      the prefix. */
  ghost predicate WalkedUpTo(gs: seq<Ghost>, k: nat, kept: seq<Ghost>, live: seq<Ghost>,
                             gained: nat, pb: Box, attacking: bool)
    reads gs
  {
    && k <= |gs|
    && live == kept + gs[k..]
    && (forall g <- kept :: g in gs[..k])
    && ResolveGhosts(gs, pb, attacking) == Join(kept, gained, ResolveGhosts(gs[k..], pb, attacking))
  }

  /** A ghost clear of the player stays in the list. */
  lemma WalkPastClear(gs: seq<Ghost>, k: nat, kept: seq<Ghost>, live: seq<Ghost>,
                      gained: nat, pb: Box, attacking: bool)
    requires WalkedUpTo(gs, k, kept, live, gained, pb, attacking) && k < |gs|
    requires !Overlaps(pb, gs[k].Box())
    ensures WalkedUpTo(gs, k + 1, kept + [gs[k]], live, gained, pb, attacking)
  {
    ResolveAt(gs, k, pb, attacking);
    assert gs[..k + 1] == gs[..k] + [gs[k]];
    assert gs[k..] == [gs[k]] + gs[k + 1..];
    JoinJoin(kept, gained, [gs[k]], 0, ResolveGhosts(gs[k + 1..], pb, attacking));
  }

  /** A ghost touching an attacking player is removed for GHOST_POINTS. */
  lemma WalkPastDefeated(gs: seq<Ghost>, k: nat, kept: seq<Ghost>, live: seq<Ghost>,
                         gained: nat, pb: Box)
    requires Distinct(gs)
    requires WalkedUpTo(gs, k, kept, live, gained, pb, true) && k < |gs|
    requires Overlaps(pb, gs[k].Box())
    ensures gs[k] in live
    ensures WalkedUpTo(gs, k + 1, kept, RemoveFirst(live, gs[k]), gained + GHOST_POINTS, pb, true)
  {
    ResolveAt(gs, k, pb, true);
    RemoveVisited(gs, k, kept);
    JoinJoin(kept, gained, [], GHOST_POINTS, ResolveGhosts(gs[k + 1..], pb, true));
    assert kept + [] == kept;
    assert gs[..k] <= gs[..k + 1];
  }

  /** A ghost touching a player who is not attacking ends the pass with the
      list as it stands. */
  lemma WalkCaught(gs: seq<Ghost>, k: nat, kept: seq<Ghost>, live: seq<Ghost>,
                   gained: nat, pb: Box)
    requires WalkedUpTo(gs, k, kept, live, gained, pb, false) && k < |gs|
    requires Overlaps(pb, gs[k].Box())
    ensures ResolveGhosts(gs, pb, false) == Fight(live, gained, true)
  {
    ResolveAt(gs, k, pb, false);
  }

  /** An attacking player is never caught: every ghost it touches is
      defeated for GHOST_POINTS each, and every other ghost stays. */
  lemma {:induction false} ArmedFight(gs: seq<Ghost>, pb: Box)
    requires Distinct(gs)
    ensures !ResolveGhosts(gs, pb, true).lost
    ensures forall g :: g in ResolveGhosts(gs, pb, true).kept <==> g in gs && !Overlaps(pb, g.Box())
    ensures ResolveGhosts(gs, pb, true).gained
         == GHOST_POINTS * |set g | g in gs && Overlaps(pb, g.Box())|
  {
    if gs != [] {
      var tail := gs[1..];
      DistinctTail(gs);
      ArmedFight(tail, pb);
      var all := set g | g in gs && Overlaps(pb, g.Box());
      var rest := set g | g in tail && Overlaps(pb, g.Box());
      forall g ensures g in gs <==> g == gs[0] || g in tail {
        assert gs == [gs[0]] + tail;
      }
      if Overlaps(pb, gs[0].Box()) {
        assert all == rest + {gs[0]};
      } else {
        assert all == rest;
      }
    }
  }

  /** The ghosts that survive the pass are listed once each. */
  lemma {:induction false} FightKeptDistinct(gs: seq<Ghost>, pb: Box, attacking: bool)
    requires Distinct(gs)
    ensures Distinct(ResolveGhosts(gs, pb, attacking).kept)
  {
    if gs != [] {
      DistinctTail(gs);
      FightKeptDistinct(gs[1..], pb, attacking);
      var f := ResolveGhosts(gs, pb, attacking);
      var rest := ResolveGhosts(gs[1..], pb, attacking);
      if !Overlaps(pb, gs[0].Box()) {
        assert f.kept == [gs[0]] + rest.kept;
        DistinctPrepend(gs[0], rest.kept);
      }
    }
  }

  /** A player who is not attacking defeats no ghost and wins no points, and
      is caught exactly when some ghost touches them. */
  lemma {:induction false} UnarmedFight(gs: seq<Ghost>, pb: Box)
    ensures ResolveGhosts(gs, pb, false).kept == gs
    ensures ResolveGhosts(gs, pb, false).gained == 0
    ensures ResolveGhosts(gs, pb, false).lost <==> exists g :: g in gs && Overlaps(pb, g.Box())
  {
    if gs != [] {
      UnarmedFight(gs[1..], pb);
      assert gs == [gs[0]] + gs[1..];
      forall g ensures g in gs <==> g == gs[0] || g in gs[1..] {
      }
    }
  }

  /** The pass can only be lost by a player who is not attacking, and then
      it leaves every ghost in place and wins no points: the first touching
      ghost stops it before anything has changed. */
  lemma LostOnlyUnarmed(gs: seq<Ghost>, pb: Box, attacking: bool)
    ensures ResolveGhosts(gs, pb, attacking).lost
        <==> !attacking && exists g :: g in gs && Overlaps(pb, g.Box())
    ensures ResolveGhosts(gs, pb, attacking).lost
        ==> ResolveGhosts(gs, pb, attacking).kept == gs && ResolveGhosts(gs, pb, attacking).gained == 0
  {
    if attacking {
      NeverLostArmed(gs, pb);
    } else {
      UnarmedFight(gs, pb);
    }
  }

  /** An attacking player is never caught, whether or not the list holds a
      ghost twice. */
  lemma {:induction false} NeverLostArmed(gs: seq<Ghost>, pb: Box)
    ensures !ResolveGhosts(gs, pb, true).lost
  {
    if gs != [] {
      NeverLostArmed(gs[1..], pb);
    }
  }

  /** A ghost leaves the list exactly when it touches an attacking player. */
  lemma GhostRemovedIffDefeated(gs: seq<Ghost>, pb: Box, attacking: bool, g: Ghost)
    requires Distinct(gs) && g in gs
    ensures g !in ResolveGhosts(gs, pb, attacking).kept <==> attacking && Overlaps(pb, g.Box())
  {
    if attacking {
      ArmedFight(gs, pb);
    } else {
      UnarmedFight(gs, pb);
    }
  }
}

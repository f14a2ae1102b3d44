module DeadChains {
  /** Edges between blocks, the rules that take dead blocks away, and the graphs from
      which they take away everything. */

  /** The blocks of a function that exist, with the blocks they branch to. */
  type Cfg = map<nat, set<nat>>

  function Preds(g: Cfg, b: nat): set<nat> {
    set p | p in g && b in g[p]
  }

  /** Block b can be merged into p: its only predecessor, which branches nowhere else. */
  predicate Mergeable(g: Cfg, b: nat, p: nat) {
    p in g && p != b && Preds(g, b) == {p} && g[p] == {b}
  }

  function Without(g: Cfg, b: nat): Cfg {
    g - {b}
  }

  function Merged(g: Cfg, b: nat, p: nat): Cfg
    requires b in g
  {
    Without(g, b)[p := g[b]]
  }

  /** Some rule of the loop applies to b. */
  ghost predicate Removable(g: Cfg, b: nat) {
    Preds(g, b) == {} || Preds(g, b) == {b} || exists p :: Mergeable(g, b, p)
  }

  // ----- chains -----

  function Out(g: Cfg, b: nat): set<nat> { if b in g then g[b] else {} }

  /** The blocks of a chain are different, and each but the last branches to the next
      one only. */
  predicate Linked(g: Cfg, c: seq<nat>) {
    && (forall i, j | 0 <= i < j < |c| :: c[i] != c[j])
    && (forall i | 0 <= i < |c| - 1 :: Out(g, c[i]) == {c[i + 1]})
  }

  /** Into a chain only its last block branches, to the first one. */
  ghost predicate Sealed(g: Cfg, dead: set<nat>, c: seq<nat>)
    requires c != []
  {
    && (forall b <- c | b in Out(g, c[|c| - 1]) :: b == c[0])
    && (forall p, b | p in dead && p !in c && b in c :: b !in Out(g, p))
  }

  ghost predicate IsChain(g: Cfg, dead: set<nat>, c: seq<nat>) {
    c != [] && Blocks(c) <= dead && Linked(g, c) && Sealed(g, dead, c)
  }

  /** The dead blocks as chains, each of which branches to later ones only. */
  ghost predicate Chained(g: Cfg, dead: set<nat>, chains: seq<seq<nat>>)
    decreases chains
  {
    if chains == [] then dead == {}
    else IsChain(g, dead, chains[0]) && Chained(g, dead - Blocks(chains[0]), chains[1..])
  }

  function Blocks(c: seq<nat>): set<nat> { set b | b in c }

  lemma {:induction false} SameChained(g: Cfg, g': Cfg, dead: set<nat>, chains: seq<seq<nat>>)
    requires Chained(g, dead, chains) && forall b <- dead :: Out(g', b) == Out(g, b)
    ensures Chained(g', dead, chains)
    decreases chains
  {
    if chains != [] {
      SameChained(g, g', dead - Blocks(chains[0]), chains[1..]);
    }
  }

  lemma {:induction false} BlocksOfTail(c: seq<nat>)
    requires c != [] && forall i, j | 0 <= i < j < |c| :: c[i] != c[j]
    ensures Blocks(c) == Blocks(c[1..]) + {c[0]} && c[0] !in c[1..]
  {
    assert c == [c[0]] + c[1..];
  }

  lemma {:induction false} FrontDeleted(g: Cfg, dead: set<nat>, c: seq<nat>)
    requires IsChain(g, dead, c) && |c| > 1 && forall p <- dead | c[0] in Out(g, p) :: p == c[0]
    ensures IsChain(Without(g, c[0]), dead - {c[0]}, c[1..])
  {
    var b, c', g' := c[0], c[1..], Without(g, c[0]);
    BlocksOfTail(c);
    assert Blocks(c') <= dead - {b};
    assert Linked(g', c') by {
      forall i | 0 <= i < |c'| - 1
        ensures Out(g', c'[i]) == {c'[i + 1]}
      {
        assert c'[i] == c[i + 1] && c'[i + 1] == c[i + 1 + 1];
      }
    }
    assert c[|c| - 1] in Blocks(c) && c'[|c'| - 1] == c[|c| - 1] != b;
    forall x | x in c'
      ensures x in c && x != b
    {
      assert x in Blocks(c');
    }
    forall q | q in dead - {b} && q !in c'
      ensures q !in c
    {
      assert q !in Blocks(c);
    }
  }

  /** A dead block without predecessors, or with itself only, leaves chains. */
  lemma {:induction false} Deleted(g: Cfg, dead: set<nat>, chains: seq<seq<nat>>, b: nat) returns (chains': seq<seq<nat>>)
    requires b in dead && Chained(g, dead, chains) && forall p <- dead | b in Out(g, p) :: p == b
    ensures Chained(Without(g, b), dead - {b}, chains')
    decreases chains
  {
    var c, g' := chains[0], Without(g, b);
    var others := dead - Blocks(c);
    if b in c {
      assert b == c[0] by {
        OnlyFirst(g, dead, c, b);
      }
      BlocksOfTail(c);
      SameChained(g, g', others, chains[1..]);
      assert dead - {b} - Blocks(c[1..]) == others;
      if |c| == 1 {
        assert dead - {b} == others;
        chains' := chains[1..];
      } else {
        FrontDeleted(g, dead, c);
        chains' := [c[1..]] + chains[1..];
        assert chains'[1..] == chains[1..];
      }
    } else {
      var rest := Deleted(g, others, chains[1..], b);
      assert dead - {b} - Blocks(c) == others - {b};
      assert c[|c| - 1] in Blocks(c);
      assert forall x <- c :: x in Blocks(c);
      assert IsChain(g', dead - {b}, c);
      chains' := [c] + rest;
      assert chains'[1..] == rest;
    }
  }

  lemma {:induction false} Precedes(g: Cfg, c: seq<nat>, k: nat)
    requires Linked(g, c) && 0 < k < |c|
    ensures c[k] in Out(g, c[k - 1]) && c[k - 1] != c[k] && c[k - 1] in Blocks(c)
    ensures Out(g, c[k - 1]) == {c[k]} && c[k] != c[0]
  {
    assert Out(g, c[k - 1]) == {c[k - 1 + 1]};
  }

  lemma {:induction false} OnlyFirst(g: Cfg, dead: set<nat>, c: seq<nat>, b: nat)
    requires IsChain(g, dead, c) && b in c && forall p <- dead | b in Out(g, p) :: p == b
    ensures b == c[0]
  {
    var k :| 0 <= k < |c| && c[k] == b;
    if k > 0 {
      Precedes(g, c, k);
      assert false;
    }
  }

  lemma {:induction false} Undeleted(g: Cfg, dead: set<nat>, b: nat, chains': seq<seq<nat>>)
    requires b in dead && forall p <- dead | b in Out(g, p) :: p == b
    requires Chained(Without(g, b), dead - {b}, chains')
    ensures Chained(g, dead, [[b]] + chains')
  {
    SameChained(Without(g, b), g, dead - {b}, chains');
    assert Blocks([b]) == {b};
    assert ([[b]] + chains')[1..] == chains';
  }

  /** So does one that is merged into its predecessor. */
  lemma {:induction false} Absorbed(g: Cfg, dead: set<nat>, chains: seq<seq<nat>>, b: nat, p: nat) returns (chains': seq<seq<nat>>)
    requires b in g && b in dead && p in dead && Mergeable(g, b, p) && Chained(g, dead, chains)
    ensures Chained(Merged(g, b, p), dead - {b}, chains')
    decreases chains
  {
    var c, g' := chains[0], Merged(g, b, p);
    var others := dead - Blocks(c);
    OnlyFrom(g, b, p);
    if p in c && b in c {
      var c' := AbsorbedChain(g, dead, c, b, p);
      SameChained(g, g', others, chains[1..]);
      assert dead - {b} - Blocks(c') == others;
      chains' := [c'] + chains[1..];
      assert chains'[1..] == chains[1..];
    } else if p in c {
      var rest := Deleted(g, others, chains[1..], b);
      SameChained(Without(g, b), g', others - {b}, rest);
      assert dead - {b} - Blocks(c) == others - {b};
      KeptChain(g, dead, c, b, p);
      chains' := [c] + rest;
      assert chains'[1..] == rest;
    } else {
      var rest := Absorbed(g, others, chains[1..], b, p);
      assert dead - {b} - Blocks(c) == others - {b};
      KeptChain(g, dead, c, b, p);
      chains' := [c] + rest;
      assert chains'[1..] == rest;
    }
  }

  lemma {:induction false} OnlyFrom(g: Cfg, b: nat, p: nat)
    requires Mergeable(g, b, p)
    ensures forall q | b in Out(g, q) :: q == p
    ensures p != b && Out(g, p) == {b}
    ensures b in g ==> forall q | q != b :: Out(Merged(g, b, p), q) == if q == p then Out(g, b) else Out(g, q)
  {
    forall q | b in Out(g, q)
      ensures q == p
    {
      assert q in Preds(g, b);
    }
  }

  lemma {:induction false} KeptChain(g: Cfg, dead: set<nat>, c: seq<nat>, b: nat, p: nat)
    requires b in g && b in dead && p in dead && Mergeable(g, b, p) && IsChain(g, dead, c) && b !in c
    ensures IsChain(Merged(g, b, p), dead - {b}, c)
  {
    hide Merged;
    var g' := Merged(g, b, p);
    OnlyFrom(g, b, p);
    assert forall x <- c :: x in Blocks(c);
    assert c[|c| - 1] in Blocks(c);
    assert Linked(g', c) by {
      forall i | 0 <= i < |c| - 1
        ensures Out(g', c[i]) == {c[i + 1]}
      {
        assert c[i + 1] in c && c[i] in c;
      }
    }
    forall q, x | q in dead - {b} && q !in c && x in c
      ensures x !in Out(g', q)
    {
      assert x !in Out(g, q) && x !in Out(g, b);
    }
  }

  /** Within a chain the merged block is the next one, or the first one at the end. */
  lemma {:induction false} AbsorbedAt(g: Cfg, c: seq<nat>, b: nat, p: nat) returns (k: nat)
    requires Linked(g, c) && b in c && p in c && Mergeable(g, b, p)
    ensures k < |c| && c[k] == b && p == if k > 0 then c[k - 1] else c[|c| - 1]
    ensures |c| > 1
  {
    hide Mergeable;
    OnlyFrom(g, b, p);
    k :| k < |c| && c[k] == b;
    var j :| 0 <= j < |c| && c[j] == p;
    if k > 0 {
      Precedes(g, c, k);
    } else if j < |c| - 1 {
      Precedes(g, c, j + 1);
      assert false;
    }
  }

  lemma {:induction false} AbsorbedChain(g: Cfg, dead: set<nat>, c: seq<nat>, b: nat, p: nat) returns (c': seq<nat>)
    requires b in g && b in c && p in c && Mergeable(g, b, p) && IsChain(g, dead, c)
    ensures IsChain(Merged(g, b, p), dead - {b}, c') && Blocks(c) == Blocks(c') + {b} && b !in c'
  {
    hide Merged, Mergeable, Sealed;
    var k := AbsorbedAt(g, c, b, p);
    c' := c[..k] + c[k + 1..];
    WithoutOne(c, k);
    if k > 0 {
      AbsorbedInside(g, dead, c, k);
    } else {
      assert c' == c[1..];
      AbsorbedFirst(g, dead, c);
    }
  }

  lemma {:induction false} WithoutOne(c: seq<nat>, k: nat)
    requires k < |c| && forall i, j | 0 <= i < j < |c| :: c[i] != c[j]
    ensures var c' := c[..k] + c[k + 1..];
      && Blocks(c) == Blocks(c') + {c[k]} && c[k] !in c'
      && (forall i, j | 0 <= i < j < |c'| :: c'[i] != c'[j])
      && (forall i | 0 <= i < |c'| :: c'[i] == if i < k then c[i] else c[i + 1])
  {
    var c' := c[..k] + c[k + 1..];
    forall x
      ensures x in Blocks(c) <==> x in Blocks(c') || x == c[k]
    {
      if x in c && x != c[k] {
        var i :| 0 <= i < |c| && c[i] == x;
        assert c'[if i < k then i else i - 1] == x;
      }
    }
  }

  lemma {:induction false} AbsorbedInside(g: Cfg, dead: set<nat>, c: seq<nat>, k: nat)
    requires 0 < k < |c| && c[k] in g && Mergeable(g, c[k], c[k - 1]) && IsChain(g, dead, c)
    ensures IsChain(Merged(g, c[k], c[k - 1]), dead - {c[k]}, c[..k] + c[k + 1..])
  {
    hide Merged, Mergeable;
    var b, p, c' := c[k], c[k - 1], c[..k] + c[k + 1..];
    var g' := Merged(g, b, p);
    OnlyFrom(g, b, p);
    WithoutOne(c, k);
    assert forall x :: x in c <==> x in Blocks(c);
    assert forall x :: x in c' <==> x in Blocks(c');
    assert Linked(g', c') by {
      forall i | 0 <= i < |c'| - 1
        ensures Out(g', c'[i]) == {c'[i + 1]}
      {
        assert Out(g, c[i]) == {c[i + 1]};
        assert Out(g, c[i + 1]) == {c[i + 1 + 1]};
      }
    }
    var last := c'[|c'| - 1];
    assert last in c';
    assert Out(g', last) == Out(g, c[|c| - 1]);
    assert c'[0] == c[0];
    forall q, x | q in dead - {b} && q !in c' && x in c'
      ensures x !in Out(g', q)
    {
      assert q !in c && x in c && q != p;
    }
  }

  lemma {:induction false} AbsorbedFirst(g: Cfg, dead: set<nat>, c: seq<nat>)
    requires |c| > 1 && c[0] in g && Mergeable(g, c[0], c[|c| - 1]) && IsChain(g, dead, c)
    ensures IsChain(Merged(g, c[0], c[|c| - 1]), dead - {c[0]}, c[1..])
  {
    hide Merged, Mergeable;
    var b, p, c' := c[0], c[|c| - 1], c[1..];
    var g' := Merged(g, b, p);
    OnlyFrom(g, b, p);
    BlocksOfTail(c);
    assert forall x :: x in c <==> x in Blocks(c);
    assert forall x :: x in c' <==> x in Blocks(c');
    assert Linked(g', c') by {
      forall i | 0 <= i < |c'| - 1
        ensures Out(g', c'[i]) == {c'[i + 1]}
      {
        assert c'[i] == c[i + 1] && c'[i] in c';
        assert Out(g, c[i + 1]) == {c[i + 1 + 1]};
      }
    }
    assert c'[|c'| - 1] == p && p in c';
    assert Out(g, c[0]) == {c[0 + 1]};
    assert Out(g', p) == {c'[0]};
    forall q, x | q in dead - {b} && q !in c' && x in c'
      ensures x !in Out(g', q)
    {
      assert q !in c && x in c && q != p;
    }
  }

  /** A merged block can be put back behind its predecessor. */
  lemma {:induction false} Unabsorbed(g: Cfg, dead: set<nat>, b: nat, p: nat, chains': seq<seq<nat>>) returns (chains: seq<seq<nat>>)
    requires b in g && b in dead && p in dead && Mergeable(g, b, p) && Chained(Merged(g, b, p), dead - {b}, chains')
    ensures Chained(g, dead, chains)
    decreases chains'
  {
    hide Merged, IsChain;
    OnlyFrom(g, b, p);
    assert p in dead - {b};
    var c, g' := chains'[0], Merged(g, b, p);
    var others := dead - {b} - Blocks(c);
    if p in c {
      var c2 := UnabsorbedChain(g, dead, b, p, c);
      SameChained(g', g, others, chains'[1..]);
      assert dead - Blocks(c2) == others;
      chains := [c2] + chains'[1..];
      assert chains[1..] == chains'[1..];
    } else {
      assert dead - Blocks(c) - {b} == others;
      InChain(g', dead - {b}, c, b);
      var rest := Unabsorbed(g, dead - Blocks(c), b, p, chains'[1..]);
      UnkeptChain(g, dead, c, b, p);
      chains := [c] + rest;
      assert chains[1..] == rest;
    }
  }

  lemma InChain(g: Cfg, dead: set<nat>, c: seq<nat>, b: nat)
    requires IsChain(g, dead, c) && b !in dead
    ensures b !in Blocks(c)
  {
  }

  lemma {:induction false} UnkeptChain(g: Cfg, dead: set<nat>, c: seq<nat>, b: nat, p: nat)
    requires b in g && b in dead && p in dead && Mergeable(g, b, p) && p !in c && IsChain(Merged(g, b, p), dead - {b}, c)
    ensures IsChain(g, dead, c)
  {
    hide Merged, Mergeable;
    var g' := Merged(g, b, p);
    OnlyFrom(g, b, p);
    assert forall x :: x in c <==> x in Blocks(c);
    assert c[|c| - 1] in c;
    assert Linked(g, c) by {
      forall i | 0 <= i < |c| - 1
        ensures Out(g, c[i]) == {c[i + 1]}
      {
        assert c[i] in c && Out(g', c[i]) == {c[i + 1]};
      }
    }
    forall q, x | q in dead && q !in c && x in c
      ensures x !in Out(g, q)
    {
      assert x !in Out(g', p);
      if q != b && q != p {
        assert x !in Out(g', q);
      }
    }
  }

  lemma {:induction false} WithOne(c: seq<nat>, k: nat, b: nat)
    requires k <= |c| && b !in c && forall i, j | 0 <= i < j < |c| :: c[i] != c[j]
    ensures var c2 := c[..k] + [b] + c[k..];
      && Blocks(c2) == Blocks(c) + {b}
      && (forall i, j | 0 <= i < j < |c2| :: c2[i] != c2[j])
      && (forall i | 0 <= i < |c2| :: c2[i] == if i < k then c[i] else if i == k then b else c[i - 1])
  {
    var c2 := c[..k] + [b] + c[k..];
    forall x
      ensures x in Blocks(c2) <==> x in Blocks(c) || x == b
    {
      if x in c {
        var i :| 0 <= i < |c| && c[i] == x;
        assert c2[if i < k then i else i + 1] == x;
      }
      assert c2[k] == b;
    }
  }

  lemma {:induction false} UnabsorbedLinks(g: Cfg, b: nat, c: seq<nat>, j: nat)
    requires b in g && b !in c && j < |c| && Mergeable(g, b, c[j]) && Linked(Merged(g, b, c[j]), c)
    ensures Linked(g, c[..j + 1] + [b] + c[j + 1..])
  {
    hide Merged, Mergeable;
    var p := c[j];
    var c2, g' := c[..j + 1] + [b] + c[j + 1..], Merged(g, b, p);
    OnlyFrom(g, b, p);
    WithOne(c, j + 1, b);
    forall i | 0 <= i < |c2| - 1
      ensures Out(g, c2[i]) == {c2[i + 1]}
    {
      if i != j {
        var k := if i < j then i else i - 1;
        assert c[k] in c && Out(g', c[k]) == {c[k + 1]};
        assert c2[i + 1] == c[k + 1];
        assert if i == j + 1 then k == j && c2[i] == b else c2[i] == c[k] != p;
      }
    }
  }

  lemma {:induction false} UnabsorbedCloses(g: Cfg, dead: set<nat>, b: nat, c: seq<nat>, j: nat)
    requires b in g && b in dead && b !in c && j < |c| && Mergeable(g, b, c[j])
    requires Sealed(Merged(g, b, c[j]), dead - {b}, c) && forall i | j < i < |c| :: c[i] != c[j]
    ensures Sealed(g, dead, c[..j + 1] + [b] + c[j + 1..])
  {
    hide Merged, Mergeable;
    var p := c[j];
    var c2, g' := c[..j + 1] + [b] + c[j + 1..], Merged(g, b, p);
    OnlyFrom(g, b, p);
    InsertedIn(c, j + 1, b);
    assert c[|c| - 1] in c;
    assert c2[|c2| - 1] == if j + 1 == |c| then b else c[|c| - 1];
    assert Out(g, c2[|c2| - 1]) == Out(g', c[|c| - 1]);
    forall q, x | q in dead && q !in c2 && x in c2
      ensures x !in Out(g, q)
    {
      assert q !in c && q != p && q != b;
      if x != b {
        assert x !in Out(g', q);
      }
    }
  }

  lemma InsertedIn(c: seq<nat>, k: nat, b: nat)
    requires k <= |c|
    ensures forall x :: x in c[..k] + [b] + c[k..] <==> x in c || x == b
  {
    assert c == c[..k] + c[k..];
  }

  lemma {:induction false} UnabsorbedChain(g: Cfg, dead: set<nat>, b: nat, p: nat, c: seq<nat>) returns (c2: seq<nat>)
    requires b in g && b in dead && p in c && Mergeable(g, b, p) && IsChain(Merged(g, b, p), dead - {b}, c)
    ensures IsChain(g, dead, c2) && Blocks(c2) == Blocks(c) + {b}
  {
    hide Merged, Mergeable, Sealed;
    var j :| 0 <= j < |c| && c[j] == p;
    assert b !in c by {
      assert b !in Blocks(c);
    }
    c2 := c[..j + 1] + [b] + c[j + 1..];
    InsertedIn(c, j + 1, b);
    assert Blocks(c2) == Blocks(c) + {b} && b in dead;
    UnabsorbedLinks(g, b, c, j);
    UnabsorbedCloses(g, dead, b, c, j);
  }

  // ----- what is left -----

  ghost predicate Dissolves(g: Cfg, dead: set<nat>) {
    exists chains :: Chained(g, dead, chains)
  }

  /** Neither rule changes whether the dead blocks are chained. */
  lemma {:induction false} RemovedDissolves(g: Cfg, dead: set<nat>, b: nat)
    requires b in dead && (Preds(g, b) == {} || Preds(g, b) == {b})
    ensures Dissolves(g, dead) <==> Dissolves(Without(g, b), dead - {b})
  {
    forall p | p in dead && b in Out(g, p)
      ensures p == b
    {
      assert p in Preds(g, b);
    }
    if Dissolves(g, dead) {
      var chains :| Chained(g, dead, chains);
      var chains' := Deleted(g, dead, chains, b);
    }
    if Dissolves(Without(g, b), dead - {b}) {
      var chains' :| Chained(Without(g, b), dead - {b}, chains');
      Undeleted(g, dead, b, chains');
    }
  }

  lemma {:induction false} MergedDissolves(g: Cfg, dead: set<nat>, b: nat, p: nat)
    requires b in g && b in dead && p in dead && Mergeable(g, b, p)
    ensures Dissolves(g, dead) <==> Dissolves(Merged(g, b, p), dead - {b})
  {
    if Dissolves(g, dead) {
      var chains :| Chained(g, dead, chains);
      var chains' := Absorbed(g, dead, chains, b, p);
    }
    if Dissolves(Merged(g, b, p), dead - {b}) {
      var chains' :| Chained(Merged(g, b, p), dead - {b}, chains');
      var chains := Unabsorbed(g, dead, b, p, chains');
    }
  }

  /** Where no rule applies, chained blocks are none. */
  lemma {:induction false} NothingLeft(g: Cfg, dead: set<nat>)
    requires forall b, p | b in dead && p in Preds(g, b) :: p in dead
    requires forall b <- dead :: !Removable(g, b)
    ensures Dissolves(g, dead) <==> dead == {}
  {
    hide Removable;
    if dead == {} {
      assert Chained(g, dead, []);
    } else if Dissolves(g, dead) {
      var chains :| Chained(g, dead, chains);
      FirstIsRemovable(g, dead, chains[0]);
    }
  }

  lemma {:induction false} FirstIsRemovable(g: Cfg, dead: set<nat>, c: seq<nat>)
    requires IsChain(g, dead, c) && forall b, p | b in dead && p in Preds(g, b) :: p in dead
    ensures exists b :: b in dead && Removable(g, b)
  {
    var b := c[if |c| == 1 then 0 else 1];
    assert b in Blocks(c);
    forall p | p in Preds(g, b)
      ensures p == c[0]
    {
      assert p in dead && b in Out(g, p);
      assert p in c;
      var i :| 0 <= i < |c| && c[i] == p;
      if i < |c| - 1 {
        assert Out(g, c[i]) == {c[i + 1]};
      }
    }
    if |c| == 1 {
      assert Preds(g, b) == {} || Preds(g, b) == {b} by {
        if c[0] in Preds(g, b) {
          assert Preds(g, b) == {b};
        } else {
          assert Preds(g, b) == {};
        }
      }
    } else {
      assert Out(g, c[0]) == {c[0 + 1]};
      assert c[0] in Preds(g, b);
      assert Preds(g, b) == {c[0]};
      assert Mergeable(g, b, c[0]);
    }
    assert Removable(g, b);
  }
}

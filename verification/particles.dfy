/**
  The spark effect: bursts of particles appended at a point, and one
  animation frame that moves every particle, pulls it down, ages it by one
  frame and drops the ones whose life has run out, keeping the others in
  order. Randomness comes in as explicit draws.
 */
module Particles {

  /** `green` is the green channel of the spark's `rgba(255, green, 0, 1)` colour. */
  datatype Particle = Particle(x: real, y: real, vx: real, vy: real, life: real, size: real, green: int)

  /** The five random numbers one spark consumes, in the order the game component draws them. */
  datatype Draw = Draw(forVx: real, forVy: real, forLife: real, forSize: real, forGreen: real)

  /** Downward acceleration per frame. */
  const Gravity: real := 0.06

  /** A random number as the browser's generator yields it. */
  predicate Unit(u: real) {
    0.0 <= u < 1.0
  }

  predicate ValidDraw(d: Draw) {
    Unit(d.forVx) && Unit(d.forVy) && Unit(d.forLife) && Unit(d.forSize) && Unit(d.forGreen)
  }

  /** A new spark at (x, y): sideways drift, upward kick, 30 to 60 frames of life, radius 1 to 3. */
  function Spark(x: real, y: real, d: Draw): (p: Particle)
    requires ValidDraw(d)
    ensures p.x == x && p.y == y
    ensures -1.5 <= p.vx < 1.5 && -5.4 <= p.vy < -2.4
    ensures 30.0 <= p.life < 60.0
    ensures 1.0 <= p.size < 3.0
    ensures 150 <= p.green < 250
  {
    var g := (d.forGreen * 100.0).Floor;
    Particle(x, y, (d.forVx - 0.5) * 3.0, (d.forVy - 1.8) * 3.0, 30.0 + d.forLife * 30.0, 1.0 + d.forSize * 2.0, 150 + g)
  }

  /** Appends one spark per draw at (x, y); the game component's bursts are 12 by default, 20 at the fuse, 14 at the cat. */
  method Spawn(store: seq<Particle>, x: real, y: real, n: nat, draws: seq<Draw>) returns (r: seq<Particle>)
    requires |draws| == n
    requires forall i :: 0 <= i < |draws| ==> ValidDraw(draws[i])
    ensures |r| == |store| + n
    ensures r[..|store|] == store
    ensures forall j :: |store| <= j < |r| ==> r[j] == Spark(x, y, draws[j - |store|])
    ensures forall j :: |store| <= j < |r| ==> r[j].x == x && r[j].y == y && 30.0 <= r[j].life < 60.0 && 1.0 <= r[j].size < 3.0
  {
    r := store;
    var i := 0;
    while i < n
      invariant 0 <= i <= n
      invariant |r| == |store| + i
      invariant r[..|store|] == store
      invariant forall j :: |store| <= j < |r| ==> r[j] == Spark(x, y, draws[j - |store|])
    {
      r := r + [Spark(x, y, draws[i])];
      i := i + 1;
    }
  }

  /** One frame of physics for one particle: position moves by the old velocity, then gravity and ageing. */
  function Move(p: Particle): (q: Particle)
    ensures q.life == p.life - 1.0
    ensures q.x - p.x == p.vx && q.y - p.y == p.vy && q.vy - p.vy == Gravity
    ensures q.vx == p.vx && q.size == p.size && q.green == p.green
  {
    p.(x := p.x + p.vx, y := p.y + p.vy, vy := p.vy + Gravity, life := p.life - 1.0)
  }

  /** A particle outlives the coming frame. */
  predicate Survives(p: Particle) {
    Move(p).life > 0.0
  }

  /** One animation frame over the whole store. */
  function Advance(ps: seq<Particle>): (r: seq<Particle>)
    ensures |r| <= |ps|
    ensures forall i :: 0 <= i < |r| ==> r[i].life > 0.0
    decreases |ps|
  {
    if |ps| == 0 then []
    else (if Survives(ps[0]) then [Move(ps[0])] else []) + Advance(ps[1..])
  }

  /** No particle is dropped exactly when every particle outlives the frame. */
  lemma {:induction false} NoneDroppedIffAllSurvive(ps: seq<Particle>)
    ensures |Advance(ps)| == |ps| <==> forall i :: 0 <= i < |ps| ==> Survives(ps[i])
    decreases |ps|
  {
    if |ps| > 0 {
      NoneDroppedIffAllSurvive(ps[1..]);
      assert forall i :: 1 <= i < |ps| ==> ps[i] == ps[1..][i - 1];
    }
  }

  /** The survivors of a frame, before they move. */
  function Living(ps: seq<Particle>): (r: seq<Particle>)
    decreases |ps|
  {
    if |ps| == 0 then []
    else if Survives(ps[|ps| - 1]) then Living(ps[..|ps| - 1]) + [ps[|ps| - 1]]
    else Living(ps[..|ps| - 1])
  }

  function MoveAll(ps: seq<Particle>): (r: seq<Particle>)
    ensures |r| == |ps|
    ensures forall i :: 0 <= i < |ps| ==> r[i] == Move(ps[i])
  {
    seq(|ps|, i requires 0 <= i < |ps| => Move(ps[i]))
  }

  /** A frame splits over a concatenation: the survivors of the front stay in front. */
  lemma {:induction false} AdvanceSplits(a: seq<Particle>, b: seq<Particle>)
    ensures Advance(a + b) == Advance(a) + Advance(b)
    decreases |a|
  {
    if |a| == 0 {
      assert a + b == b;
    } else {
      assert (a + b)[1..] == a[1..] + b;
      AdvanceSplits(a[1..], b);
    }
  }

  /** A frame is exactly: keep the particles that outlive it, in their order, and move each of them. */
  lemma {:induction false} AdvanceMovesTheLiving(ps: seq<Particle>)
    ensures Advance(ps) == MoveAll(Living(ps))
    decreases |ps|
  {
    if |ps| > 0 {
      var front, last := ps[..|ps| - 1], ps[|ps| - 1];
      assert ps == front + [last];
      AdvanceSplits(front, [last]);
      assert Advance([last]) == (if Survives(last) then [Move(last)] else []) + Advance([last][1..]);
      assert [last][1..] == [];
      AdvanceMovesTheLiving(front);
    }
  }

  /** A frame over a suffix of the store, unfolded once. */
  lemma AdvanceFrom(ps: seq<Particle>, i: nat)
    requires i < |ps|
    ensures Advance(ps[i..]) == (if Survives(ps[i]) then [Move(ps[i])] else []) + Advance(ps[i + 1..])
  {
    assert ps[i..][1..] == ps[i + 1..];
  }

  /**
    The frame loop of `App.tsx`: walk the store from the back, update each
    particle in place and splice it out once its life is at or below 0.
   */
  method AdvanceInPlace(ps: seq<Particle>) returns (arr: seq<Particle>)
    ensures arr == Advance(ps)
  {
    arr := ps;
    var i := |ps|;
    while i > 0
      invariant 0 <= i <= |ps| && i <= |arr|
      invariant arr[..i] == ps[..i]
      invariant arr[i..] == Advance(ps[i..])
    {
      i := i - 1;
      FrameStep(ps, arr, i);
      var p := Move(arr[i]);
      if p.life <= 0.0 {
        arr := arr[..i] + arr[i + 1..];
      } else {
        arr := arr[..i] + [p] + arr[i + 1..];
      }
    }
    assert arr == arr[..0] + arr[0..];
  }

  /** One turn of the frame loop at index `i` keeps the loop's invariant. */
  lemma FrameStep(ps: seq<Particle>, arr: seq<Particle>, i: nat)
    requires i < |ps| && i < |arr|
    requires arr[..i + 1] == ps[..i + 1]
    requires arr[i + 1..] == Advance(ps[i + 1..])
    ensures var p := Move(arr[i]);
      var next := if p.life <= 0.0 then arr[..i] + arr[i + 1..] else arr[..i] + [p] + arr[i + 1..];
      i <= |next| && next[..i] == ps[..i] && next[i..] == Advance(ps[i..])
  {
    assert arr[i] == ps[i] by {
      assert arr[..i + 1][i] == ps[..i + 1][i];
    }
    assert arr[..i] == ps[..i] by {
      assert arr[..i] == arr[..i + 1][..i];
      assert ps[..i] == ps[..i + 1][..i];
    }
    var p := Move(arr[i]);
    AdvanceFrom(ps, i);
    Splice(arr, i, if p.life <= 0.0 then [] else [p]);
  }

  /** Replacing element `i` of `a` by `mid` keeps the front and puts `mid` before the back. */
  lemma Splice<T>(a: seq<T>, i: nat, mid: seq<T>)
    requires i < |a|
    ensures (a[..i] + mid + a[i + 1..])[..i] == a[..i]
    ensures (a[..i] + mid + a[i + 1..])[i..] == mid + a[i + 1..]
  {
    var b := a[..i] + mid + a[i + 1..];
    assert b == a[..i] + (mid + a[i + 1..]);
  }

  /** `k` frames in a row. */
  function Frames(ps: seq<Particle>, k: nat): seq<Particle>
    decreases k
  {
    if k == 0 then ps else Frames(Advance(ps), k - 1)
  }

  /** A store of live particles that all have at most `k` frames of life left is empty after `k` frames. */
  lemma {:induction false} BurnsOut(ps: seq<Particle>, k: nat)
    requires forall i :: 0 <= i < |ps| ==> 0.0 < ps[i].life <= k as real
    ensures Frames(ps, k) == []
    decreases k
  {
    if k > 0 {
      var a := Advance(ps);
      AdvanceMovesTheLiving(ps);
      LivingAreFromTheStore(ps);
      forall i | 0 <= i < |a|
        ensures 0.0 < a[i].life <= (k - 1) as real
      {
        var q := Living(ps)[i];
        assert q in Living(ps);
        var j :| 0 <= j < |ps| && ps[j] == q;
        assert a[i] == Move(q);
      }
      BurnsOut(a, k - 1);
    }
  }

  lemma {:induction false} LivingAreFromTheStore(ps: seq<Particle>)
    ensures forall q :: q in Living(ps) ==> q in ps && Survives(q)
    decreases |ps|
  {
    if |ps| > 0 {
      LivingAreFromTheStore(ps[..|ps| - 1]);
    }
  }

  /** Every spark of a burst is gone within 60 frames, so a finite number of bursts leaves no residue. */
  lemma BurstBurnsOut(x: real, y: real, draws: seq<Draw>)
    requires forall i :: 0 <= i < |draws| ==> ValidDraw(draws[i])
    ensures Frames(seq(|draws|, i requires 0 <= i < |draws| => Spark(x, y, draws[i])), 60) == []
  {
    BurnsOut(seq(|draws|, i requires 0 <= i < |draws| => Spark(x, y, draws[i])), 60);
  }
}

/** The crash history of `updateCrashHistory`: a FIFO of the last ten crash
    points (hundredths, newest last) and the colour each point is drawn in.
 */
module CrashHistory {

  const Capacity := 10

  /** One push: when the buffer already holds `Capacity` entries, the oldest
      one is shifted out first. */
  function Push(h: seq<int>, p: int): (r: seq<int>)
    ensures |h| <= Capacity ==> |r| <= Capacity
    ensures |r| > 0 && r[|r| - 1] == p
    ensures |h| < Capacity ==> r[..|r| - 1] == h
    ensures |h| >= Capacity ==> |r| == |h| && r[..|r| - 1] == h[1..]
  {
    if |h| >= Capacity then h[1..] + [p] else h + [p]
  }

  /** The last `n` elements of `s` (all of `s` when it is shorter). */
  function Latest(s: seq<int>, n: nat): (r: seq<int>)
    ensures |r| == if |s| <= n then |s| else n
    ensures r == s[|s| - |r|..]
  {
    if |s| <= n then s else s[|s| - n..]
  }

  /** Pushing a sequence of crash points, one round after another. */
  function PushAll(h: seq<int>, ps: seq<int>): seq<int>
    decreases |ps|
  {
    if ps == [] then h else PushAll(Push(h, ps[0]), ps[1..])
  }

  lemma LatestOfLatest(s: seq<int>, t: seq<int>, n: nat)
    ensures Latest(Latest(s, n) + t, n) == Latest(s + t, n)
  {
    if |s| > n {
      var x := s + t;
      var l := s[|s| - n..];
      assert Latest(s, n) == l;
      assert l + t == x[|s| - n..];
      if t == [] {
        assert x == s;
      } else {
        var y := x[|s| - n..];
        assert |y| == n + |t| > n;
        assert Latest(y, n) == y[|t|..];
        assert y[|t|..] == x[|x| - n..];
      }
    }
  }

  /** One push keeps exactly the ten most recent points. */
  lemma PushIsLatest(h: seq<int>, p: int)
    requires |h| <= Capacity
    ensures Push(h, p) == Latest(h + [p], Capacity)
  {
  }

  /** After any number of rounds the history holds exactly the (at most) ten
      most recent crash points, oldest first. */
  lemma {:induction false} PushAllKeepsLatest(h: seq<int>, ps: seq<int>)
    requires |h| <= Capacity
    ensures PushAll(h, ps) == Latest(h + ps, Capacity)
    decreases |ps|
  {
    if ps == [] {
      assert h + ps == h;
    } else {
      var p, rest := ps[0], ps[1..];
      var h' := Push(h, p);
      PushIsLatest(h, p);
      PushAllKeepsLatest(h', rest);
      calc {
        PushAll(h, ps);
        PushAll(h', rest);
        Latest(h' + rest, Capacity);
        Latest(Latest(h + [p], Capacity) + rest, Capacity);
        { LatestOfLatest(h + [p], rest, Capacity); }
        Latest(h + [p] + rest, Capacity);
        { assert h + [p] + rest == h + ps; }
        Latest(h + ps, Capacity);
      }
    }
  }

  /** The four CSS classes of a history item. */
  datatype Colour = Red | Green | LightBlue | Yellow

  function ColourOf(p: int): Colour {
    if p < 200 then Red
    else if p < 1000 then Green
    else if p < 2000 then LightBlue
    else Yellow
  }

  /** Colours in order of the crash points they stand for. */
  function Rank(c: Colour): nat {
    match c
    case Red => 0
    case Green => 1
    case LightBlue => 2
    case Yellow => 3
  }

  /** A higher crash point never gets a lower colour. */
  lemma ColourMonotone(p: int, q: int)
    requires p <= q
    ensures Rank(ColourOf(p)) <= Rank(ColourOf(q))
  {
  }

  /** The colour changes exactly at 2.00x, 10.00x and 20.00x. */
  lemma ColourThresholds(p: int)
    ensures ColourOf(p) == Red <==> p < 200
    ensures ColourOf(p) == Green <==> 200 <= p < 1000
    ensures ColourOf(p) == LightBlue <==> 1000 <= p < 2000
    ensures ColourOf(p) == Yellow <==> 2000 <= p
  {
  }

  /** The colour of every item of the history bar, in display order. */
  function Colours(h: seq<int>): (cs: seq<Colour>)
    ensures |cs| == |h|
    ensures forall i :: 0 <= i < |h| ==> cs[i] == ColourOf(h[i])
  {
    if h == [] then [] else [ColourOf(h[0])] + Colours(h[1..])
  }
}

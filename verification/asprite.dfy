/** Animated sprites: a sprite that cycles through a list of frames at a fixed pace. */
module AnimSprites {
  import opened Common
  import opened Sprites

  /**
   * The fields of an `AnimSprite`: its sprite, its frames (`num_fig` is their number), the
   * index of the frame shown, the animation speed and the calls counted since the last change.
   */
  datatype AnimRec = AnimRec(sp: SpriteRec, maps: seq<PixMap>, curFig: nat, aspeed: int, curAspeed: nat)

  /** The frame list is not empty and the sprite shows the current frame. */
  predicate ValidAnim(a: AnimRec)
  {
    1 <= |a.maps| && a.curFig < |a.maps| && a.sp.pixmap == a.maps[a.curFig]
  }

  /** One image handed to `create_asprite`: loaded, with its size, or a load that failed. */
  datatype Frame = Loaded(pixmap: PixMap, width: u16, height: u16) | LoadFailed

  /** Every frame after the first loaded and has the size of the first. */
  predicate FramesAgree(frames: seq<Frame>)
    requires 1 <= |frames| && frames[0].Loaded?
  {
    forall i :: 1 <= i < |frames| ==>
      frames[i].Loaded? && frames[i].width == frames[0].width && frames[i].height == frames[0].height
  }

  /** The pixmaps of a list of loaded frames. */
  function MapsOf(frames: seq<Frame>): (ms: seq<PixMap>)
    requires forall i :: 0 <= i < |frames| ==> frames[i].Loaded?
    ensures |ms| == |frames|
    ensures forall i :: 0 <= i < |frames| ==> ms[i] == frames[i].pixmap
  {
    if frames == [] then [] else [frames[0].pixmap] + MapsOf(frames[1..])
  }

  /**
   * `create_asprite`: a sprite at (0,0) with zero speed showing the first frame, frame 0 and
   * animation counter 0; no sprite at all when a later frame fails to load or differs in size.
   */
  function CreateAsprite(aspeed: int, frames: seq<Frame>): (r: Option<AnimRec>)
    requires 1 <= |frames| < 0x100 && frames[0].Loaded?
    ensures r.None? <==> !FramesAgree(frames)
    ensures r.Some? ==>
      && ValidAnim(r.value)
      && r.value.curFig == 0 && r.value.curAspeed == 0 && r.value.aspeed == aspeed
      && r.value.sp == SpriteRec(0, 0, frames[0].width, frames[0].height, 0, 0, frames[0].pixmap)
      && |r.value.maps| == |frames|
      && forall i :: 0 <= i < |frames| ==> r.value.maps[i] == frames[i].pixmap
  {
    if !FramesAgree(frames) then None
    else
      var f0 := frames[0];
      Some(AnimRec(SpriteRec(0, 0, f0.width, f0.height, 0, 0, f0.pixmap), MapsOf(frames), 0, aspeed, 0))
  }

  /**
   * `animate_asprite`: the new fields and the result. Below the animation speed only the
   * counter moves; at it, the counter restarts and the next frame (cyclically) is shown, and
   * the result is 1 exactly when `destroy` is set and that frame is the last one.
   */
  function AnimateStep(a: AnimRec, destroy: bool): (r: (AnimRec, int))
    requires ValidAnim(a)
    ensures ValidAnim(r.0)
    ensures r.0.maps == a.maps && r.0.aspeed == a.aspeed
    ensures r.0.sp == a.sp.(pixmap := r.0.sp.pixmap)
    ensures a.curAspeed < a.aspeed ==>
      r.0.curAspeed == a.curAspeed + 1 && r.0.curFig == a.curFig && r.0.sp.pixmap == a.sp.pixmap && r.1 == 0
    ensures a.curAspeed >= a.aspeed ==>
      && r.0.curAspeed == 0
      && (if a.curFig + 1 < |a.maps| then r.0.curFig == a.curFig + 1 else r.0.curFig == 0)
    ensures r.1 == 1 <==> destroy && a.curAspeed >= a.aspeed && r.0.curFig == |a.maps| - 1
    ensures r.1 == 0 || r.1 == 1
  {
    if a.curAspeed >= a.aspeed then
      var f := NextFig(a.curFig, |a.maps|);
      var b := a.(curAspeed := 0, curFig := f, sp := a.sp.(pixmap := a.maps[f]));
      (b, if destroy && f == |a.maps| - 1 then 1 else 0)
    else
      (a.(curAspeed := a.curAspeed + 1), 0)
  }

  /** The frame after `cur` of `n`, cyclically: `(cur_fig + 1) % num_fig`. */
  function NextFig(cur: nat, n: nat): (f: nat)
    requires cur < n
    ensures f == (if cur + 1 < n then cur + 1 else 0)
  {
    if cur + 1 < n then DivModUnique(cur + 1, n, 0, cur + 1); (cur + 1) % n
    else DivModUnique(cur + 1, n, 1, 0); (cur + 1) % n
  }

  /** The fields after `n` calls of `animate_asprite` with `destroy` set. */
  function AnimateN(a: AnimRec, n: nat): (b: AnimRec)
    requires ValidAnim(a)
    ensures ValidAnim(b) && b.maps == a.maps && b.aspeed == a.aspeed
    ensures b.sp == a.sp.(pixmap := b.sp.pixmap)
  {
    if n == 0 then a else AnimateStep(AnimateN(a, n - 1), true).0
  }

  lemma MulAtLeast(d: int, p: int)
    requires p > 0
    ensures d >= 1 ==> d * p >= p
    ensures d <= -1 ==> d * p <= -p
  {
  }

  lemma DivModUnique(n: int, p: int, q: int, r: int)
    requires p > 0 && 0 <= r < p && n == q * p + r
    ensures n / p == q && n % p == r
  {
    var q0, r0 := n / p, n % p;
    assert (q - q0) * p == r0 - r;
    MulAtLeast(q - q0, p);
  }

  /** How a call counter splits into whole periods of `p` calls and the calls left over. */
  lemma CounterStep(k: nat, p: nat)
    requires p >= 1
    ensures k % p == p - 1 ==> (k + 1) % p == 0 && (k + 1) / p == k / p + 1
    ensures k % p < p - 1 ==> (k + 1) % p == k % p + 1 && (k + 1) / p == k / p
  {
    if k % p == p - 1 {
      DivModUnique(k + 1, p, k / p + 1, 0);
    } else {
      DivModUnique(k + 1, p, k / p, k % p + 1);
    }
  }

  lemma ModSucc(x: nat, n: nat)
    requires n >= 1
    ensures (x % n + 1) % n == (x + 1) % n
  {
    if x % n + 1 < n {
      DivModUnique(x + 1, n, x / n, x % n + 1);
      DivModUnique(x % n + 1, n, 0, x % n + 1);
    } else {
      DivModUnique(x + 1, n, x / n + 1, 0);
      DivModUnique(x % n + 1, n, 1, 0);
    }
  }

  /**
   * The frame advances once every `aspeed + 1` calls: after `n` calls the counter is
   * `(cur_aspeed + n) mod (aspeed + 1)` and the frame has moved on by the number of whole
   * periods completed, modulo `num_fig`.
   */
  lemma {:induction false} FramePeriod(a: AnimRec, n: nat)
    requires ValidAnim(a) && 0 <= a.aspeed && a.curAspeed <= a.aspeed
    ensures AnimateN(a, n).curAspeed == (a.curAspeed + n) % (a.aspeed + 1)
    ensures AnimateN(a, n).curFig == (a.curFig + (a.curAspeed + n) / (a.aspeed + 1)) % |a.maps|
  {
    if n == 0 {
      PeriodStart(a.curAspeed, a.aspeed + 1, a.curFig, |a.maps|);
    } else {
      var p, m, k := a.aspeed + 1, |a.maps|, a.curAspeed + n - 1;
      FramePeriod(a, n - 1);
      var b := AnimateN(a, n - 1);
      PeriodStep(b, p, m, a.curFig, k);
    }
  }

  lemma PeriodStart(c: nat, p: nat, f: nat, m: nat)
    requires c < p && f < m
    ensures c % p == c && f + c / p == f && f % m == f
  {
    DivModUnique(c, p, 0, c);
    DivModUnique(f, m, 0, f);
  }

  /** One call moves the counter and the frame on as `FramePeriod` says, from `k` calls to `k + 1`. */
  lemma PeriodStep(b: AnimRec, p: nat, m: nat, fig0: nat, k: nat)
    requires ValidAnim(b) && p >= 1 && p == b.aspeed + 1 && m == |b.maps|
    requires b.curAspeed == k % p && b.curFig == (fig0 + k / p) % m
    ensures AnimateStep(b, true).0.curAspeed == (k + 1) % p
    ensures AnimateStep(b, true).0.curFig == (fig0 + (k + 1) / p) % m
  {
    CounterStep(k, p);
    if k % p == p - 1 {
      ModSucc(fig0 + k / p, m);
    }
  }

  /**
   * An explosion (20 frames, animation speed 3, created at frame 0) asks to be destroyed for
   * the first time on its 76th call: each of the first 75 calls returns 0.
   */
  lemma ExplosionLifetime(e: AnimRec, n: nat)
    requires ValidAnim(e) && |e.maps| == 20 && e.aspeed == 3 && e.curFig == 0 && e.curAspeed == 0
    requires n <= 75
    ensures AnimateStep(AnimateN(e, n), true).1 == 1 <==> n == 75
  {
    FramePeriod(e, n);
    assert n / 4 <= 18;
  }

  /** An `AnimSprite` in the heap: its frame counters and its sprite's pixmap change in place. */
  class AnimSprite {
    const sp: Sprite
    const maps: seq<PixMap>
    var curFig: nat
    const aspeed: int
    var curAspeed: nat

    function Rec(): AnimRec
      reads this, sp
    {
      AnimRec(sp.Rec(), maps, curFig, aspeed, curAspeed)
    }

    constructor (r: AnimRec)
      ensures Rec() == r && fresh(sp)
    {
      sp := new Sprite(r.sp);
      maps, curFig, aspeed, curAspeed := r.maps, r.curFig, r.aspeed, r.curAspeed;
    }

    /** `animate_asprite` on this sprite. */
    method Animate(destroy: bool) returns (r: int)
      requires ValidAnim(Rec())
      modifies this, sp
      ensures (Rec(), r) == AnimateStep(old(Rec()), destroy)
    {
      if curAspeed >= aspeed {
        curAspeed := 0;
        curFig := (curFig + 1) % |maps|;
        sp.pixmap := maps[curFig];
        if destroy && curFig == |maps| - 1 {
          return 1;
        }
      } else {
        curAspeed := curAspeed + 1;
      }
      return 0;
    }
  }

  /**
   * `create_asprite`: checks the frames after the first one by one and gives up on the first
   * that failed to load or differs in size.
   */
  method NewAnimSprite(aspeed: int, frames: seq<Frame>) returns (a: AnimSprite?)
    requires 1 <= |frames| < 0x100 && frames[0].Loaded?
    ensures a == null <==> CreateAsprite(aspeed, frames).None?
    ensures a != null ==> fresh(a) && fresh(a.sp) && a.Rec() == CreateAsprite(aspeed, frames).value
  {
    var i := 1;
    while i < |frames|
      invariant 1 <= i <= |frames|
      invariant forall k :: 1 <= k < i ==>
        frames[k].Loaded? && frames[k].width == frames[0].width && frames[k].height == frames[0].height
    {
      if frames[i].LoadFailed? || frames[i].width != frames[0].width || frames[i].height != frames[0].height {
        return null;
      }
      i := i + 1;
    }
    var f0 := frames[0];
    a := new AnimSprite(AnimRec(SpriteRec(0, 0, f0.width, f0.height, 0, 0, f0.pixmap), MapsOf(frames), 0, aspeed, 0));
  }
}

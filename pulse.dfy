/**
 * The three-frame pulse drawn around a typed character: a thin border, a
 * thick bright one, a thin one again, each shown until its timeout fires,
 * which disposes of it and shows the next. Every timeout is one explicit
 * call; handle `h` is the `h`-th decoration the pulse created.
 */
module Pulse {
  import opened Host

  /** A solid white border `widthPx` wide with opacity `alphaTenths` / 10. */
  datatype Border = Border(widthPx: nat, alphaTenths: nat)

  /** A pulse frame's style: border, corner radius and the background's opacity in hundredths. */
  datatype PulseStyle = PulseStyle(border: Border, radiusPx: nat, backgroundAlphaHundredths: nat)

  /** The borders of the three frames, in drawing order. */
  const Borders: seq<Border> := [Border(1, 4), Border(2, 8), Border(1, 4)]

  const FrameCount: nat := 3

  function StyleOf(i: nat): (st: PulseStyle)
    requires i < FrameCount
    ensures st.border == Borders[i] && st.radiusPx == 4 && st.backgroundAlphaHundredths == 7
  {
    PulseStyle(Borders[i], 4, 7)
  }

  /** The pulse swells and fades back: the outer frames match and are thinner and fainter than the middle one. */
  lemma PulseShape()
    ensures |Borders| == FrameCount
    ensures StyleOf(0) == StyleOf(2)
    ensures StyleOf(0).border.widthPx < StyleOf(1).border.widthPx
    ensures StyleOf(0).border.alphaTenths < StyleOf(1).border.alphaTenths
  {
  }

  /**
   * `i` is the index of the frame shown or next to show, `created[h]` the
   * frame handle `h` draws, `pending` whether a timeout is waiting.
   */
  datatype PulseState = PulseState(i: nat, created: seq<nat>, disposed: set<nat>, pending: bool)

  /** Show frame `i` and wait for its timeout, unless every frame was shown. */
  function Show(s: PulseState): (r: PulseState)
    ensures r.i == s.i && r.disposed == s.disposed && s.created <= r.created
    ensures s.i < FrameCount ==> r.pending && r.created == s.created + [s.i]
    ensures s.i >= FrameCount ==> r == s
  {
    if s.i >= FrameCount then s
    else s.(created := s.created + [s.i], pending := true)
  }

  /** Creating the pulse shows its first frame. */
  function Start(): (r: PulseState)
    ensures r.i == 0 && r.created == [0] && r.disposed == {} && r.pending
  {
    Show(PulseState(0, [], {}, false))
  }

  /** A timeout: dispose of the frame it belongs to, move on and show the next frame if there is one. */
  function Fire(s: PulseState): (r: PulseState)
    requires s.pending && |s.created| > 0
    ensures r.i == s.i + 1 && r.disposed == s.disposed + {|s.created| - 1} && s.created <= r.created
    ensures r.pending <==> r.i < FrameCount
    ensures r.pending ==> r.created == s.created + [r.i]
  {
    var t := s.(disposed := s.disposed + {|s.created| - 1}, i := s.i + 1, pending := false);
    if t.i < FrameCount then Show(t) else t
  }

  /** The state after `n` timeouts have fired, stopping when none remains. */
  function Run(s: PulseState, n: nat): PulseState
    decreases n
  {
    if n == 0 || !s.pending || |s.created| == 0 then s else Run(Fire(s), n - 1)
  }

  function Live(s: PulseState): set<nat> {
    set h | 0 <= h < |s.created| && h !in s.disposed
  }

  /**
   * Every reachable state: the frames were created in order 0, 1, 2, a
   * timeout is pending exactly while the current frame's is, and every frame
   * before the current one has been disposed of.
   */
  ghost predicate Inv(s: PulseState) {
    && s.i <= FrameCount
    && (s.pending <==> s.i < FrameCount)
    && |s.created| == (if s.pending then s.i + 1 else s.i)
    && (forall h | 0 <= h < |s.created| :: s.created[h] == h)
    && (forall h: nat :: h in s.disposed <==> h < s.i)
  }

  lemma StartInv()
    ensures Inv(Start()) && Start().i == 0 && Start().created == [0] && Start().pending
  {
  }

  lemma FireInv(s: PulseState)
    requires Inv(s) && s.pending
    ensures |s.created| > 0 && Inv(Fire(s)) && Fire(s).i == s.i + 1
  {
    assert |s.created| - 1 == s.i;
  }

  /** At most one frame is live: the current one while its timeout is pending, none afterwards. */
  lemma LiveFrames(s: PulseState)
    requires Inv(s)
    ensures Live(s) == (if s.pending then {s.i} else {})
  {
    forall h ensures h in Live(s) <==> s.pending && h == s.i {
    }
  }

  lemma {:induction false} RunInv(s: PulseState, n: nat)
    requires Inv(s)
    ensures Inv(Run(s, n))
    ensures Run(s, n).i == if s.i + n < FrameCount then s.i + n else FrameCount
    decreases n
  {
    if n > 0 && s.pending {
      FireInv(s);
      RunInv(Fire(s), n - 1);
    }
  }

  /**
   * The whole pulse: a timeout is pending until the third one fires; frame
   * `j` is shown after `j` timeouts; in the end frames 0, 1, 2 were created
   * in that order and all were disposed of.
   */
  lemma PulseLifetime(n: nat)
    ensures Run(Start(), n).pending <==> n < FrameCount
    ensures n < FrameCount ==> Live(Run(Start(), n)) == {n} && Run(Start(), n).created[n] == n
    ensures n >= FrameCount ==>
      && Run(Start(), n).created == [0, 1, 2]
      && Run(Start(), n).disposed == {0, 1, 2}
      && Live(Run(Start(), n)) == {}
  {
    StartInv();
    RunInv(Start(), n);
    var t := Run(Start(), n);
    LiveFrames(t);
    if n >= FrameCount {
      assert t.created == [0, 1, 2] by {
        assert |t.created| == 3;
      }
      assert t.disposed == {0, 1, 2} by {
        forall h ensures h in t.disposed <==> h in {0, 1, 2} {
        }
      }
    }
  }

  /** One pulse on `range`, as created by the pulse function: its first frame is already shown. */
  class PulseAnimation {
    const range: Range
    var i: nat
    var created: seq<nat>
    var disposed: set<nat>
    var pending: bool

    function State(): PulseState
      reads this
    {
      PulseState(i, created, disposed, pending)
    }

    ghost predicate Valid()
      reads this
    {
      Inv(State())
    }

    /** The style handle `h` is drawn in; every frame is drawn on the pulse's range. */
    function Style(h: nat): (st: PulseStyle)
      reads this
      requires Valid() && h < |created|
      ensures st == StyleOf(h)
    {
      StyleOf(created[h])
    }

    constructor(range: Range)
      ensures Valid() && State() == Start() && this.range == range
    {
      this.range := range;
      i := 0;
      created := [0];
      disposed := {};
      pending := true;
      new;
      StartInv();
    }

    /** The pending timeout fires. */
    method TimeoutFires()
      requires Valid() && pending
      modifies this
      ensures Valid() && State() == Fire(old(State()))
    {
      ghost var s := State();
      FireInv(s);
      disposed := disposed + {|created| - 1};
      i := i + 1;
      pending := false;
      if i < FrameCount {
        created := created + [i];
        pending := true;
      }
      assert State() == Fire(s);
    }
  }
}

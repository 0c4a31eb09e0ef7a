/**
 * The two frame sequences a keystroke starts: the floating glyph and the
 * expanding corner box. Each owns the list of decoration handles it has
 * alive, disposing of the oldest before it creates the next, and stops
 * ticking once its progress reaches a limit, then lingers and disposes of
 * everything. Every timer callback is one explicit step.
 *
 * Handles are numbered in creation order: handle `id` is the `id`-th frame
 * the instance created, and `frames[id]` is the progress it was drawn at.
 * The glyph's progress is counted in half pixels (a tick adds 1.5 px, the
 * limit is 12 px); the corner box's in pixels of expansion.
 */
module Animation {
  import opened Wrappers
  import opened Host
  import Decorations

  type HandleId = nat

  datatype Kind = FloatingGlyph | CornerBox

  /** Progress per tick: 1.5 px of glyph offset (3 half pixels), or 3 px of box expansion. */
  const StepSize: nat := 3

  /** The tick that reaches this progress clears the interval: offset 12 px, expansion 30. */
  function Limit(k: Kind): nat {
    match k
    case FloatingGlyph => 24
    case CornerBox => 30
  }

  /**
   * Delayed: the glyph's first frame is shown, its interval not yet started.
   * Running: the interval ticks. Lingering: the interval is cleared and the
   * final dispose is pending. Finished: nothing is pending.
   */
  datatype Phase = Delayed | Running | Lingering | Finished

  datatype Schedule = Schedule(phase: Phase, progress: nat, decorations: seq<HandleId>,
                               frames: seq<nat>, disposed: set<HandleId>)

  /** The glyph shows its first frame at offset 0 straight away; the corner box starts ticking with no frame. */
  function Initial(k: Kind): Schedule {
    match k
    case FloatingGlyph => Schedule(Delayed, 0, [0], [0], {})
    case CornerBox => Schedule(Running, 0, [], [], {})
  }

  /** The first half of a tick: shift the oldest handle off the list and dispose of it. */
  function ShiftDispose(s: Schedule): (r: Schedule)
    ensures r.phase == s.phase && r.progress == s.progress && r.frames == s.frames
    ensures s.disposed <= r.disposed && (s.decorations != [] ==> |r.decorations| == |s.decorations| - 1)
    ensures Elements(s.decorations) <= Elements(r.decorations) + r.disposed
  {
    if |s.decorations| > 0 then s.(decorations := s.decorations[1..], disposed := s.disposed + {s.decorations[0]})
    else s
  }

  /** The second half: advance, create and push a handle drawn at the new progress, stop at the limit. */
  function PushFrame(s: Schedule, k: Kind): (r: Schedule)
    ensures r.progress == s.progress + StepSize && r.frames == s.frames + [r.progress]
    ensures r.decorations == s.decorations + [|s.frames|] && r.disposed == s.disposed
    ensures r.phase == (if r.progress >= Limit(k) then Lingering else Running)
    ensures s.frames <= r.frames && r.decorations[|r.decorations| - 1] == |r.frames| - 1
  {
    var p := s.progress + StepSize;
    Schedule(if p >= Limit(k) then Lingering else Running, p, s.decorations + [|s.frames|], s.frames + [p], s.disposed)
  }

  function Elements(d: seq<HandleId>): set<HandleId> {
    set id | id in d
  }

  /** What the next timer callback of an instance does. */
  function Next(s: Schedule, k: Kind): (r: Schedule)
    ensures s.disposed <= r.disposed && s.progress <= r.progress && s.frames <= r.frames
    ensures s.phase == Finished ==> r == s
    ensures s.phase == Lingering ==> r.phase == Finished && Elements(s.decorations) <= r.disposed
    ensures s.phase == Running ==> |r.frames| == |s.frames| + 1 && r.phase != Delayed
  {
    match s.phase
    case Delayed => s.(phase := Running)
    case Running => PushFrame(ShiftDispose(s), k)
    case Lingering => s.(phase := Finished, disposed := s.disposed + Elements(s.decorations))
    case Finished => s
  }

  /** The state after `n` callbacks. */
  function Run(s: Schedule, k: Kind, n: nat): Schedule
    decreases n
  {
    if n == 0 then s else Run(Next(s, k), k, n - 1)
  }

  /** The handles created and not yet disposed of. */
  function Live(s: Schedule): set<HandleId> {
    set id | 0 <= id < |s.frames| && id !in s.disposed
  }

  /** Progress `a`, `a + 3`, ..., `n` values. */
  function Progression(a: nat, n: nat): (p: seq<nat>)
    ensures |p| == n
  {
    seq(n, i requires 0 <= i < n => a + StepSize * i)
  }

  /** The progress drawn on the `i`-th frame of an instance. */
  function FrameProgress(k: Kind, i: nat): nat {
    match k
    case FloatingGlyph => StepSize * i
    case CornerBox => StepSize * (i + 1)
  }

  /**
   * The invariant every reachable schedule keeps: at most one handle in the
   * list, the live handles are exactly those in the list (none once
   * finished), and the frames were drawn at consecutive steps.
   */
  ghost predicate Inv(s: Schedule, k: Kind) {
    && |s.decorations| <= 1
    && (s.decorations != [] ==> s.decorations == [|s.frames| - 1])
    && (forall id | id in s.disposed :: id < |s.frames|)
    && Live(s) == (if s.phase == Finished then {} else Elements(s.decorations))
    && (s.phase == Delayed || s.phase == Running <==> s.progress < Limit(k))
    && (s.phase == Delayed ==> k == FloatingGlyph && s.progress == 0)
    && (forall i | 0 <= i < |s.frames| :: s.frames[i] == FrameProgress(k, i))
    && (match k
        case FloatingGlyph => |s.frames| >= 1 && s.progress == StepSize * (|s.frames| - 1)
        case CornerBox => s.progress == StepSize * |s.frames|)
  }

  lemma InitialInv(k: Kind)
    ensures Inv(Initial(k), k)
  {
    var s := Initial(k);
    if k == FloatingGlyph {
      assert Live(s) == {0} by {
        assert 0 in Live(s);
      }
    }
  }

  /** Disposing of more handles removes exactly those from the live ones. */
  lemma LiveAfterDispose(s: Schedule, d: set<HandleId>)
    ensures Live(s.(disposed := s.disposed + d)) == Live(s) - d
  {
  }

  /** Creating a handle whose id is fresh adds exactly it to the live ones. */
  lemma LiveAfterCreate(s: Schedule, k: Kind)
    requires forall id | id in s.disposed :: id < |s.frames|
    ensures Live(PushFrame(s, k)) == Live(s) + {|s.frames|}
  {
  }

  /** Every callback keeps the invariant. */
  lemma NextInv(s: Schedule, k: Kind)
    requires Inv(s, k)
    ensures Inv(Next(s, k), k)
  {
    match s.phase {
      case Delayed =>
      case Running =>
        TickInv(s, k);
      case Lingering =>
        LiveAfterDispose(s, Elements(s.decorations));
      case Finished =>
    }
  }

  /** A tick keeps the invariant: one handle out, the next one in, drawn one step further. */
  lemma TickInv(s: Schedule, k: Kind)
    requires Inv(s, k) && s.phase == Running
    ensures Inv(Next(s, k), k)
  {
    var t := Next(s, k);
    DisposeBeforeCreate(s, k);
    assert t.decorations == [|s.frames|];
    assert t.frames == s.frames + [s.progress + StepSize];
    assert forall i | 0 <= i < |t.frames| :: t.frames[i] == FrameProgress(k, i) by {
      assert s.progress + StepSize == FrameProgress(k, |s.frames|);
    }
    assert forall id | id in t.disposed :: id < |t.frames|;
  }

  /** The dispose of a tick comes before its create: between the two no handle of the instance is live. */
  lemma DisposeBeforeCreate(s: Schedule, k: Kind)
    requires Inv(s, k) && s.phase == Running
    ensures Live(ShiftDispose(s)) == {}
    ensures Live(Next(s, k)) == {|s.frames|} == Elements(Next(s, k).decorations)
  {
    var u := ShiftDispose(s);
    if s.decorations != [] {
      LiveAfterDispose(s, {s.decorations[0]});
      assert Elements(s.decorations) == {s.decorations[0]};
    }
    LiveAfterCreate(u, k);
  }

  /** An instance never has more than one live handle. */
  lemma AtMostOneLive(s: Schedule, k: Kind)
    requires Inv(s, k)
    ensures |Live(s)| <= 1
  {
    if s.decorations != [] {
      assert Elements(s.decorations) == {s.decorations[0]};
    }
  }

  lemma {:induction false} RunAdd(s: Schedule, k: Kind, a: nat, b: nat)
    ensures Run(s, k, a + b) == Run(Run(s, k, a), k, b)
    decreases a
  {
    if a > 0 {
      RunAdd(Next(s, k), k, a - 1, b);
    }
  }

  /** Every state an instance reaches keeps the invariant, so at most one of its handles is live at any time. */
  lemma {:induction false} ReachableInv(k: Kind, n: nat)
    ensures Inv(Run(Initial(k), k, n), k)
    ensures |Live(Run(Initial(k), k, n))| <= 1
  {
    if n == 0 {
      InitialInv(k);
    } else {
      ReachableInv(k, n - 1);
      RunAdd(Initial(k), k, n - 1, 1);
      NextInv(Run(Initial(k), k, n - 1), k);
    }
    AtMostOneLive(Run(Initial(k), k, n), k);
  }

  /** A running instance that needs exactly `n` more ticks to reach its limit ticks `n` times and then lingers. */
  lemma {:induction false} TicksToLimit(s: Schedule, k: Kind, n: nat)
    requires s.phase == Running && n >= 1
    requires s.progress + StepSize * (n - 1) < Limit(k) <= s.progress + StepSize * n
    ensures Run(s, k, n).phase == Lingering
    ensures Run(s, k, n).progress == s.progress + StepSize * n
    ensures Run(s, k, n).frames == s.frames + Progression(s.progress + StepSize, n)
    decreases n
  {
    var t := Next(s, k);
    if n == 1 {
      assert Run(s, k, 1) == t;
      assert Progression(s.progress + StepSize, 1) == [s.progress + StepSize];
    } else {
      TicksToLimit(t, k, n - 1);
      assert Run(s, k, n) == Run(t, k, n - 1);
      ProgressionCons(s.progress + StepSize, n);
    }
  }

  lemma ProgressionCons(p: nat, n: nat)
    requires n >= 1
    ensures [p] + Progression(p + StepSize, n - 1) == Progression(p, n)
  {
    assert forall i | 1 <= i < n :: Progression(p, n)[i] == Progression(p + StepSize, n - 1)[i - 1];
  }

  /** Until then it keeps running. */
  lemma {:induction false} RunningBeforeLimit(s: Schedule, k: Kind, n: nat, m: nat)
    requires s.phase == Running && m < n
    requires s.progress + StepSize * (n - 1) < Limit(k)
    ensures Run(s, k, m).phase == Running
    decreases m
  {
    if m > 0 {
      RunningBeforeLimit(Next(s, k), k, n - 1, m - 1);
    }
  }

  lemma {:induction false} FinishedStays(s: Schedule, k: Kind, n: nat)
    requires s.phase == Finished
    ensures Run(s, k, n) == s
    decreases n
  {
    if n > 0 {
      FinishedStays(s, k, n - 1);
    }
  }

  /**
   * The floating glyph: its first frame at offset 0, then exactly 8 ticks at
   * 1.5, 3, ..., 12 px, then the linger disposes of everything. The 10th
   * callback finishes it; from then on no frame is added and none is live.
   */
  lemma {:induction false} GlyphLifetime(n: nat)
    ensures Run(Initial(FloatingGlyph), FloatingGlyph, n).phase == Finished <==> n >= 10
    ensures n >= 10 ==>
      var t := Run(Initial(FloatingGlyph), FloatingGlyph, n);
      && Live(t) == {}
      && |t.frames| == 9
      && (forall i | 0 <= i < 9 :: t.frames[i] == StepSize * i)
      && t.frames[8] == Limit(FloatingGlyph)
  {
    var k := FloatingGlyph;
    var s0 := Initial(k);
    var s1 := Next(s0, k);
    if n > 0 {
      assert Run(s0, k, n) == Run(s1, k, n - 1);
      FinishesAfter(s1, k, 8, n - 1);
      if n >= 10 {
        var t := Run(s0, k, n);
        assert t.frames == [0] + Progression(StepSize, 8);
        assert forall i | 0 <= i < 9 :: t.frames[i] == StepSize * i by {
          forall i | 1 <= i < 9 ensures t.frames[i] == StepSize * i {
            assert t.frames[i] == Progression(StepSize, 8)[i - 1];
          }
        }
        ReachableInv(k, n);
      }
    }
  }

  /**
   * The corner box: exactly 10 ticks at expansion 3, 6, ..., 30, then the
   * linger disposes of everything. The 11th callback finishes it; from then
   * on no frame is added and none is live.
   */
  lemma {:induction false} CornerLifetime(n: nat)
    ensures Run(Initial(CornerBox), CornerBox, n).phase == Finished <==> n >= 11
    ensures n >= 11 ==>
      var t := Run(Initial(CornerBox), CornerBox, n);
      && Live(t) == {}
      && |t.frames| == 10
      && (forall i | 0 <= i < 10 :: t.frames[i] == StepSize * (i + 1))
      && t.frames[9] == Limit(CornerBox)
  {
    FinishesAfter(Initial(CornerBox), CornerBox, 10, n);
    if n >= 11 {
      ReachableInv(CornerBox, n);
    }
  }

  /**
   * A running instance that needs exactly `ticks` more ticks to reach its
   * limit is finished after exactly one callback more, with those ticks'
   * frames and nothing else added.
   */
  lemma FinishesAfter(s: Schedule, k: Kind, ticks: nat, n: nat)
    requires s.phase == Running && ticks >= 1
    requires s.progress + StepSize * (ticks - 1) < Limit(k) <= s.progress + StepSize * ticks
    ensures Run(s, k, n).phase == Finished <==> n > ticks
    ensures n > ticks ==> Run(s, k, n).frames == s.frames + Progression(s.progress + StepSize, ticks)
  {
    TicksToLimit(s, k, ticks);
    if n < ticks {
      RunningBeforeLimit(s, k, ticks, n);
    }
    if n > ticks {
      RunAdd(s, k, ticks, n - ticks);
      var l := Run(s, k, ticks);
      assert Run(l, k, n - ticks) == Run(Next(l, k), k, n - 1 - ticks);
      FinishedStays(Next(l, k), k, n - 1 - ticks);
    }
  }

  // ---------------------------------------------------------------- the live instances

  /** The size every floating glyph is drawn at. */
  const GlyphSize: nat := 26

  /** What every frame of an instance draws: a glyph of one text, colour and direction, or a box of one colour. */
  datatype Visual =
    | GlyphVisual(text: string, color: string, direction: Option<Decorations.Direction>)
    | BoxVisual(color: string)

  datatype Descriptor = TextFrame(glyph: Decorations.TextGlyph) | BoxFrame(box: Decorations.CornerBox)

  /** One running animation, with the source's `decorations` array and its `offset` or `expansion`. */
  class FrameAnimation {
    const kind: Kind
    const visual: Visual
    const range: Range
    var phase: Phase
    var progress: nat
    var decorations: seq<HandleId>
    var frames: seq<nat>
    var disposed: set<HandleId>

    function State(): Schedule
      reads this
    {
      Schedule(phase, progress, decorations, frames, disposed)
    }

    ghost predicate Valid()
      reads this
    {
      && Inv(State(), kind)
      && (kind == FloatingGlyph <==> visual.GlyphVisual?)
      && (visual.GlyphVisual? ==> visual.color != "")
    }

    /**
     * What handle `id` draws. Every glyph frame is the glyph of the first
     * frame moved to its own offset, in the first frame's colour.
     */
    function Frame(id: HandleId): (d: Descriptor)
      reads this
      requires id < |frames|
      ensures d.TextFrame? <==> visual.GlyphVisual?
      ensures (if d.TextFrame? then d.glyph.color else d.box.color) == visual.color
    {
      match visual
      case GlyphVisual(t, c, d) => TextFrame(Decorations.TextGlyph(t, c, GlyphSize, frames[id] as real / 2.0, d))
      case BoxVisual(c) => BoxFrame(Decorations.CornerBox(c, frames[id] as real))
    }

    /**
     * The colour is chosen once: every frame an instance has drawn repeats its
     * first frame, moved on by one step per frame — 1.5 px of glyph offset, or
     * 3 of box expansion starting from 3.
     */
    lemma OneColourThroughout(id: HandleId)
      requires Valid() && id < |frames|
      ensures kind == FloatingGlyph ==>
        && Frame(id).TextFrame? && Frame(0).glyph.offset == 0.0
        && Frame(id).glyph == Frame(0).glyph.(offset := 1.5 * id as real)
      ensures kind == CornerBox ==>
        && Frame(id).BoxFrame? && Frame(0).box.expansion == 3.0
        && Frame(id).box == Frame(0).box.(expansion := 3.0 * (id + 1) as real)
    {
      assert frames[id] == FrameProgress(kind, id) && frames[0] == FrameProgress(kind, 0);
    }

    /** A floating glyph whose first frame, at offset 0, is `first`, already shown on `range`. */
    constructor Glyph(first: Decorations.TextGlyph, range: Range)
      requires first.size == GlyphSize && first.offset == 0.0 && first.color != ""
      ensures Valid() && kind == FloatingGlyph && State() == Initial(FloatingGlyph)
      ensures visual == GlyphVisual(first.text, first.color, first.direction) && this.range == range
      ensures Frame(0) == TextFrame(first)
    {
      kind := FloatingGlyph;
      visual := GlyphVisual(first.text, first.color, first.direction);
      this.range := range;
      phase := Delayed;
      progress := 0;
      decorations := [0];
      frames := [0];
      disposed := {};
      new;
      InitialInv(FloatingGlyph);
    }

    /** A corner box in `color` on `range`, its interval already started. */
    constructor Box(color: string, range: Range)
      ensures Valid() && kind == CornerBox && State() == Initial(CornerBox)
      ensures visual == BoxVisual(color) && this.range == range
    {
      kind := CornerBox;
      visual := BoxVisual(color);
      this.range := range;
      phase := Running;
      progress := 0;
      decorations := [];
      frames := [];
      disposed := {};
      new;
      InitialInv(CornerBox);
    }

    /**
     * The next timer callback: start the interval, tick (dispose of the
     * shifted handle, advance, create and push the next one, clear the
     * interval at the limit), or dispose of every handle after the linger.
     */
    method Step()
      requires Valid()
      modifies this
      ensures Valid() && State() == Next(old(State()), kind)
    {
      ghost var s := State();
      NextInv(s, kind);
      match phase {
        case Delayed =>
          phase := Running;
        case Running =>
          if |decorations| > 0 {
            disposed := disposed + {decorations[0]};
            decorations := decorations[1..];
          }
          progress := progress + StepSize;
          var id := |frames|;
          frames := frames + [progress];
          decorations := decorations + [id];
          if progress >= Limit(kind) {
            phase := Lingering;
          }
        case Lingering =>
          disposed := disposed + Elements(decorations);
          phase := Finished;
        case Finished =>
      }
      assert State() == Next(s, kind);
    }
  }
}

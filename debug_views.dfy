/**
 * The views the demo page attaches to a running emulator, each seen only as
 * a running/stopped flag, and the effect of the debug checkbox on them and on
 * the opacity of the `.debug` elements.
 */
module DebugViews {

  /** The ten views `startGame` creates, in its order. */
  datatype View =
    | Status | Screen
    | CpuRegister | PPURegister | DisASM
    | BackgroundPalette | SpritePalette
    | ParttenTable1 | ParttenTable2 | NameTable

  /** The two views started at boot and never touched by the checkbox. */
  predicate IsAlwaysOn(v: View)
  {
    v == Status || v == Screen
  }

  /** The eight views the checkbox starts and stops together. */
  predicate IsDebugView(v: View)
  {
    !IsAlwaysOn(v)
  }

  /** A view is one of the ten. */
  lemma ViewCases(v: View)
    ensures v in {Status, Screen, CpuRegister, PPURegister, DisASM,
                  BackgroundPalette, SpritePalette, ParttenTable1, ParttenTable2, NameTable}
  {
    match v
    case Status => case Screen => case CpuRegister => case PPURegister => case DisASM =>
    case BackgroundPalette => case SpritePalette => case ParttenTable1 => case ParttenTable2 =>
    case NameTable =>
  }

  /** The running flag of each view. */
  type ViewState = map<View, bool>

  /** A state that has a flag for every view. */
  predicate AllViews(m: ViewState)
  {
    forall v: View :: v in m
  }

  /** Every view constructed and not yet started. */
  function AllStopped(): (m: ViewState)
    ensures AllViews(m)
    ensures forall v: View :: !m[v]
  {
    var m := map[Status := false, Screen := false, CpuRegister := false, PPURegister := false,
                 DisASM := false, BackgroundPalette := false, SpritePalette := false,
                 ParttenTable1 := false, ParttenTable2 := false, NameTable := false];
    assert forall v: View :: v in m by {
      forall v: View ensures v in m {
        ViewCases(v);
      }
    }
    m
  }

  /**
   * The views after boot: `status.start()` and `screen.start()` run, and no
   * debug view has been started.
   */
  function BootViews(): (m: ViewState)
    ensures AllViews(m)
    ensures forall v: View :: m[v] <==> IsAlwaysOn(v)
  {
    AllStopped()[Status := true][Screen := true]
  }

  /**
   * The views after the checkbox reports `checked`: all eight debug views
   * take `checked` (one `start()` or `stop()` each) and the always-on views
   * keep their flags.
   */
  function Toggled(m: ViewState, checked: bool): (r: ViewState)
    ensures forall v :: v in r <==> v in m || IsDebugView(v)
    ensures forall v :: IsDebugView(v) ==> r[v] == checked
    ensures forall v :: v in m && IsAlwaysOn(v) ==> r[v] == m[v]
    ensures AllViews(m) ==> AllViews(r)
  {
    m[CpuRegister := checked][PPURegister := checked][DisASM := checked]
     [BackgroundPalette := checked][SpritePalette := checked]
     [ParttenTable1 := checked][ParttenTable2 := checked][NameTable := checked]
  }

  /** After a toggle the debug group is all running or all stopped. */
  lemma ToggledAllOrNothing(m: ViewState, checked: bool, v: View, w: View)
    requires IsDebugView(v) && IsDebugView(w)
    ensures Toggled(m, checked)[v] == Toggled(m, checked)[w]
  {
  }

  /** Only the last toggle counts: `toggle(a)` then `toggle(b)` is `toggle(b)`. */
  lemma ToggledLastWins(m: ViewState, a: bool, b: bool)
    ensures Toggled(Toggled(m, a), b) == Toggled(m, b)
  {
  }

  /** Toggling twice with the same value is toggling once. */
  lemma ToggledIdempotent(m: ViewState, checked: bool)
    ensures Toggled(Toggled(m, checked), checked) == Toggled(m, checked)
  {
    ToggledLastWins(m, checked, checked);
  }

  /** From boot, the running views are the always-on ones plus, iff checked, the debug group. */
  lemma ToggledFromBoot(checked: bool, v: View)
    ensures Toggled(BootViews(), checked)[v] == (IsAlwaysOn(v) || checked)
  {
  }

  /** `debug.checked ? '1' : '0'`. */
  function Opacity(checked: bool): (s: string)
    ensures checked ==> s == "1"
    ensures !checked ==> s == "0"
  {
    if checked then "1" else "0"
  }

  /** The `.debug` element opacities after a toggle: every one is the toggle's opacity. */
  function Painted(elements: seq<string>, checked: bool): (r: seq<string>)
    ensures |r| == |elements|
    ensures forall i :: 0 <= i < |r| ==> r[i] == Opacity(checked)
  {
    seq(|elements|, _ => Opacity(checked))
  }

  /** Painting again with the same value changes nothing; only the last value counts. */
  lemma PaintedLastWins(elements: seq<string>, a: bool, b: bool)
    ensures Painted(Painted(elements, a), b) == Painted(elements, b)
    ensures Painted(Painted(elements, b), b) == Painted(elements, b)
  {
  }
}

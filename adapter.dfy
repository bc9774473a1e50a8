/**
 * The Bluetooth adapter's power state as the scanner observes it, and the
 * status line derived from it.
 */
module Adapter {
  import opened Wrappers

  /** The `State` enumeration of react-native-ble-plx; each value is a string at run time. */
  datatype AdapterState = Unknown | Resetting | Unsupported | Unauthorized | PoweredOff | PoweredOn

  /** The string an enumeration value stands for. */
  function Name(s: AdapterState): (r: string)
    ensures r != ""
  {
    match s
    case Unknown => "Unknown"
    case Resetting => "Resetting"
    case Unsupported => "Unsupported"
    case Unauthorized => "Unauthorized"
    case PoweredOff => "PoweredOff"
    case PoweredOn => "PoweredOn"
  }

  /**
   * JavaScript truthiness of `bleState`, a `State | null`: not null and not
   * the empty string. No state's name is empty, so only null is falsy.
   */
  predicate TruthyState(s: Option<AdapterState>): (r: bool)
    ensures r <==> s.Some?
  {
    s.Some? && Name(s.value) != ""
  }

  const CHECKING := "Checking Bluetooth state..."
  const PREFIX := "Bluetooth: "

  /** `statusText`: checks `!bleState`, then `PoweredOn`, else shows the state's name. */
  function StatusText(s: Option<AdapterState>): (r: string)
    ensures r == CHECKING <==> s.None?
    ensures r == PREFIX + "ON" <==> s == Some(PoweredOn)
    ensures s.Some? ==> PREFIX <= r
    ensures s.Some? && s.value != PoweredOn ==> r == PREFIX + Name(s.value)
  {
    if !TruthyState(s) then CHECKING
    else if s.value == PoweredOn then PREFIX + "ON"
    else PREFIX + Name(s.value)
  }

  // ---------------------------------------------------------------------------
  // Properties

  /** No two states share a run-time string. */
  lemma NameInjective(s: AdapterState, t: AdapterState)
    requires Name(s) == Name(t)
    ensures s == t
  {
  }

  /** `Unknown` is a state like any other: it is shown by name, not as "Checking...". */
  lemma UnknownIsShownByName()
    ensures StatusText(Some(Unknown)) == "Bluetooth: Unknown"
  {
  }

  /** Different observations give different status lines. */
  lemma StatusTextInjective(s: Option<AdapterState>, t: Option<AdapterState>)
    requires StatusText(s) == StatusText(t)
    ensures s == t
  {
    if s.Some? && t.Some? {
      var a, b := StatusText(s), StatusText(t);
      var n, m := a[|PREFIX|..], b[|PREFIX|..];
      assert n == (if s.value == PoweredOn then "ON" else Name(s.value));
      assert m == (if t.value == PoweredOn then "ON" else Name(t.value));
    }
  }
}

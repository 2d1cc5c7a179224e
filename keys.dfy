/** The key-state table: the global `keys` object written by the keydown
    and keyup handlers and read by `KeyIsPressed`. */
module Keys {
  import opened JsValues

  /** `KeyIsPressed(code)`: reads `keys[code]`, which is `undefined` when the
      table has no entry for `code`, and reports whether it is defined and
      truthy. */
  function KeyIsPressed(keys: map<string, bool>, code: string): (pressed: bool)
    ensures pressed <==> code in keys && keys[code]
    ensures code !in keys ==> !pressed
  {
    var entry := if code in keys then Some(keys[code]) else None;
    entry.Some? && entry.value
  }

  /** A keyboard event, carrying `event.code`. */
  datatype KeyEvent = KeyDown(code: string) | KeyUp(code: string)

  /** The table after one handler ran: keydown stores `true`, keyup `false`. */
  function Apply(keys: map<string, bool>, e: KeyEvent): (keys': map<string, bool>)
    ensures KeyIsPressed(keys', e.code) == e.KeyDown?
    ensures keys'.Keys == keys.Keys + {e.code}
    ensures forall c :: c in keys && c != e.code ==> keys'[c] == keys[c]
  {
    keys[e.code := e.KeyDown?]
  }

  /** The table after the handlers ran for `events`, in order. */
  function Replay(keys: map<string, bool>, events: seq<KeyEvent>): map<string, bool>
  {
    if |events| == 0 then keys else Apply(Replay(keys, events[..|events| - 1]), events[|events| - 1])
  }

  /** The last event in `events` about `code`, if any. */
  function LastEventFor(events: seq<KeyEvent>, code: string): (e: Option<KeyEvent>)
    ensures e.Some? ==> e.value in events && e.value.code == code
  {
    if |events| == 0 then None
    else if events[|events| - 1].code == code then Some(events[|events| - 1])
    else LastEventFor(events[..|events| - 1], code)
  }

  /** After any sequence of key events, a key reads as pressed exactly when
      the last event about it was a keydown; a key no event mentions keeps
      its earlier state. */
  lemma {:induction false} PressedAfterEvents(keys: map<string, bool>, events: seq<KeyEvent>, code: string)
    ensures KeyIsPressed(Replay(keys, events), code) ==
      match LastEventFor(events, code)
      case None => KeyIsPressed(keys, code)
      case Some(e) => e.KeyDown?
  {
    if |events| > 0 {
      PressedAfterEvents(keys, events[..|events| - 1], code);
    }
  }

  /** The global `keys` table together with its two event handlers. */
  class KeyTable {
    var keys: map<string, bool>

    /** `var keys = {}`. */
    constructor ()
      ensures keys == map[]
      ensures forall c :: !KeyIsPressed(keys, c)
    {
      keys := map[];
    }

    /** The keydown handler: `keys[event.code] = true`. */
    method OnKeyDown(code: string)
      modifies this
      ensures keys == Apply(old(keys), KeyDown(code))
      ensures KeyIsPressed(keys, code)
      ensures forall c :: c != code ==> KeyIsPressed(keys, c) == KeyIsPressed(old(keys), c)
    {
      keys := keys[code := true];
    }

    /** The keyup handler: `keys[event.code] = false`. */
    method OnKeyUp(code: string)
      modifies this
      ensures keys == Apply(old(keys), KeyUp(code))
      ensures !KeyIsPressed(keys, code)
      ensures forall c :: c != code ==> KeyIsPressed(keys, c) == KeyIsPressed(old(keys), c)
    {
      keys := keys[code := false];
    }
  }

  /** The names `keys = {}` inherits from `Object.prototype`. Each reads as
      something truthy: `__proto__` reads `Object.prototype` itself, an
      object, and every other name reads a function. */
  const ObjectPrototypeNames: set<string> :=
    {"constructor", "hasOwnProperty", "isPrototypeOf", "propertyIsEnumerable",
     "toLocaleString", "toString", "valueOf", "__defineGetter__",
     "__defineSetter__", "__lookupGetter__", "__lookupSetter__", "__proto__"}

  /** `KeyIsPressed` as the code reads it: `keys[code]` falls back to the
      prototype chain when there is no own entry. `__proto__` never gets an
      own entry, because assigning a boolean to it is ignored by the
      prototype setter, so it always reads `Object.prototype`. */
  function KeyIsPressedAsWritten(keys: map<string, bool>, code: string): (pressed: bool)
    ensures code !in ObjectPrototypeNames ==> pressed == KeyIsPressed(keys, code)
    ensures code == "__proto__" ==> pressed
  {
    if code == "__proto__" then true
    else if code in keys then keys[code]
    else code in ObjectPrototypeNames
  }

  /** With no key ever pressed, `KeyIsPressed("toString")` and
      `KeyIsPressed("__proto__")` as written return true, while the intended
      table lookup returns false; a keyup for `__proto__` does not release it. */
  lemma InheritedNameReadsAsPressed()
    ensures KeyIsPressedAsWritten(map[], "toString")
    ensures !KeyIsPressed(map[], "toString")
    ensures KeyIsPressedAsWritten(map[], "__proto__")
    ensures !KeyIsPressed(map[], "__proto__")
    ensures KeyIsPressedAsWritten(Apply(map[], KeyUp("__proto__")), "__proto__")
  {
  }
}

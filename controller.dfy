/** Keyboard-to-controller input: the twelve-key table, the key-down and
    key-up handlers that write the emulator's `input_state` dictionary, and
    the input-state callback the emulator core polls. The same table and
    handlers appear in the web component and in the older page helper. */
module Controller {
  import opened Text

  /** A keyboard key and the SNES button it stands for. */
  datatype Button = Button(key: string, value: string)

  /** `input_buttons`; a button's libretro id is its index. */
  const InputButtons: seq<Button> := [
    Button("l", "B"),
    Button("k", "Y"),
    Button("Shift", "Select"),
    Button("Enter", "Start"),
    Button("w", "Up"),
    Button("s", "Down"),
    Button("a", "Left"),
    Button("d", "Right"),
    Button("p", "A"),
    Button("o", "X"),
    Button("q", "LeftTrigger"),
    Button("e", "RightTrigger")
  ]

  /** No two buttons share a key. */
  lemma KeysDistinct()
    ensures |InputButtons| == 12
    ensures forall i, j :: 0 <= i < j < |InputButtons| ==> InputButtons[i].key != InputButtons[j].key
  {
  }

  /** `findInputIndex`: the index of the button whose key equals `key`
      exactly (case matters), or -1. */
  function FindInputIndex(key: string): (r: int)
    ensures -1 <= r < |InputButtons|
    ensures r == -1 <==> forall i :: 0 <= i < |InputButtons| ==> InputButtons[i].key != key
    ensures r != -1 ==> InputButtons[r].key == key
  {
    FindFrom(key, 0)
  }

  function FindFrom(key: string, i: nat): (r: int)
    requires i <= |InputButtons|
    ensures r == -1 || i <= r < |InputButtons|
    ensures r == -1 <==> forall j :: i <= j < |InputButtons| ==> InputButtons[j].key != key
    ensures r != -1 ==> InputButtons[r].key == key
                        && forall j :: i <= j < r ==> InputButtons[j].key != key
    decreases |InputButtons| - i
  {
    if i == |InputButtons| then -1
    else if InputButtons[i].key == key then i
    else FindFrom(key, i + 1)
  }

  /** Looking up a button's own key finds that button. */
  lemma FindInputIndexOfButton(i: int)
    requires 0 <= i < |InputButtons|
    ensures FindInputIndex(InputButtons[i].key) == i
  {
    KeysDistinct();
  }

  /** The fullscreen keys are not in the table, whatever their case. */
  lemma FullscreenKeysUnmapped()
    ensures FindInputIndex("f") == -1 && FindInputIndex("F") == -1
  {
    LetterNotAKey('f');
    LetterNotAKey('F');
  }

  /** A one-letter key that starts no button's key is not in the table. */
  lemma LetterNotAKey(c: char)
    requires c !in "lkSEwsadpoqe"
    ensures FindInputIndex([c]) == -1
  {
    forall i | 0 <= i < |InputButtons|
      ensures InputButtons[i].key != [c]
    {
      assert InputButtons[i].key[0] in "lkSEwsadpoqe";
    }
  }

  /** `[port, device, input, id].toString()`: the dictionary key the
      input-state callback reads. */
  function InputKey(port: nat, device: nat, input: nat, id: nat): (k: string)
    ensures forall i :: 0 <= i < |k| ==> k[i] == ',' || '0' <= k[i] <= '9'
    ensures StartsWith(k, Decimal(port) + [','])
  {
    Decimal(port) + [','] + (Decimal(device) + [','] + (Decimal(input) + [','] + Decimal(id)))
  }

  /** `` `0,1,0,${idx}` ``: the dictionary key the key handlers write for
      button `idx` of the joypad on port 0. */
  function KeyState(idx: nat): (k: string)
    ensures k == InputKey(0, 1, 0, idx)
  {
    "0,1,0," + Decimal(idx)
  }

  lemma NoCommaInDecimal(n: nat)
    ensures ',' !in Decimal(n)
  {
    var d := Decimal(n);
    assert forall i :: 0 <= i < |d| ==> d[i] != ',';
  }

  /** Different queries read different dictionary entries. */
  lemma {:induction false} InputKeyInjective(p: nat, d: nat, i: nat, id: nat, p': nat, d': nat, i': nat, id': nat)
    requires InputKey(p, d, i, id) == InputKey(p', d', i', id')
    ensures p == p' && d == d' && i == i' && id == id'
  {
    NoCommaInDecimal(p); NoCommaInDecimal(p');
    NoCommaInDecimal(d); NoCommaInDecimal(d');
    NoCommaInDecimal(i); NoCommaInDecimal(i');
    var rest2 := Decimal(i) + [','] + Decimal(id);
    var rest := Decimal(d) + [','] + rest2;
    var rest2' := Decimal(i') + [','] + Decimal(id');
    var rest' := Decimal(d') + [','] + rest2';
    SplitAtComma(Decimal(p), rest, Decimal(p'), rest');
    SplitAtComma(Decimal(d), rest2, Decimal(d'), rest2');
    SplitAtComma(Decimal(i), Decimal(id), Decimal(i'), Decimal(id'));
    DecimalInjective(p, p');
    DecimalInjective(d, d');
    DecimalInjective(i, i');
    DecimalInjective(id, id');
  }

  /** The input-state callback: the stored value if it is truthy (non-zero),
      otherwise 0 ("not pressed"); an unset key also reads 0. */
  function InputStateLookup(state: map<string, int>, port: nat, device: nat, input: nat, id: nat): (v: int)
    ensures v != 0 <==> InputKey(port, device, input, id) in state && state[InputKey(port, device, input, id)] != 0
    ensures v != 0 ==> v == state[InputKey(port, device, input, id)]
  {
    var key := InputKey(port, device, input, id);
    if key in state && state[key] != 0 then state[key] else 0
  }

  /** Writing button `idx`'s entry is seen by the query for that button and
      by no other query. */
  lemma LookupAfterWrite(state: map<string, int>, idx: nat, v: int, port: nat, device: nat, input: nat, id: nat)
    ensures InputStateLookup(state[KeyState(idx) := v], 0, 1, 0, idx) == v
    ensures (port, device, input, id) != (0, 1, 0, idx) ==>
      InputStateLookup(state[KeyState(idx) := v], port, device, input, id) == InputStateLookup(state, port, device, input, id)
  {
    if (port, device, input, id) != (0, 1, 0, idx) && InputKey(port, device, input, id) == KeyState(idx) {
      InputKeyInjective(port, device, input, id, 0, 1, 0, idx);
    }
  }

  /** The state the handlers act on: the `input_state` dictionary of the
      emulator object and whether the canvas is shown fullscreen. */
  class Emulator {
    var inputState: map<string, int>
    var fullscreen: bool

    constructor ()
      ensures inputState == map[] && !fullscreen
    {
      inputState := map[];
      fullscreen := false;
    }

    /** The value the core reads for a button. */
    function Query(port: nat, device: nat, input: nat, id: nat): int
      reads this
    {
      InputStateLookup(inputState, port, device, input, id)
    }

    /** The key-down handler: 'f' or 'F' toggles fullscreen and returns
        before the table is consulted; a mapped key sets its entry to 1; an
        unmapped key changes nothing. */
    method KeyDown(key: string)
      modifies this
      ensures key == "f" || key == "F" ==> fullscreen == !old(fullscreen) && inputState == old(inputState)
      ensures key != "f" && key != "F" ==> fullscreen == old(fullscreen)
      ensures key != "f" && key != "F" ==>
        inputState == (if FindInputIndex(key) == -1 then old(inputState)
                       else old(inputState)[KeyState(FindInputIndex(key)) := 1])
      ensures key != "f" && key != "F" && FindInputIndex(key) != -1 ==>
        Query(0, 1, 0, FindInputIndex(key)) == 1
      ensures forall p: nat, d: nat, i: nat, id: nat
                | (key == "f" || key == "F" || FindInputIndex(key) == -1 || (p, d, i, id) != (0, 1, 0, FindInputIndex(key)))
                :: Query(p, d, i, id) == old(Query(p, d, i, id))
    {
      if key == "f" || key == "F" {
        fullscreen := !fullscreen;
        return;
      }
      var idx := FindInputIndex(key);
      if idx != -1 {
        inputState := inputState[KeyState(idx) := 1];
        forall p: nat, d: nat, i: nat, id: nat | (p, d, i, id) != (0, 1, 0, idx)
          ensures Query(p, d, i, id) == old(Query(p, d, i, id))
        {
          LookupAfterWrite(old(inputState), idx, 1, p, d, i, id);
        }
        LookupAfterWrite(old(inputState), idx, 1, 0, 1, 0, idx);
      }
    }

    /** The key-up handler: a mapped key sets its entry to 0 (so the button
        reads as released); an unmapped key changes nothing. */
    method KeyUp(key: string)
      modifies this
      ensures fullscreen == old(fullscreen)
      ensures inputState == (if FindInputIndex(key) == -1 then old(inputState)
                             else old(inputState)[KeyState(FindInputIndex(key)) := 0])
      ensures FindInputIndex(key) != -1 ==> Query(0, 1, 0, FindInputIndex(key)) == 0
      ensures forall p: nat, d: nat, i: nat, id: nat
                | (FindInputIndex(key) == -1 || (p, d, i, id) != (0, 1, 0, FindInputIndex(key)))
                :: Query(p, d, i, id) == old(Query(p, d, i, id))
    {
      var idx := FindInputIndex(key);
      if idx != -1 {
        inputState := inputState[KeyState(idx) := 0];
        forall p: nat, d: nat, i: nat, id: nat | (p, d, i, id) != (0, 1, 0, idx)
          ensures Query(p, d, i, id) == old(Query(p, d, i, id))
        {
          LookupAfterWrite(old(inputState), idx, 0, p, d, i, id);
        }
        LookupAfterWrite(old(inputState), idx, 0, 0, 1, 0, idx);
      }
    }
  }
}

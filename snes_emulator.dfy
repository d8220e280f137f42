/** The `<snes-emulator>` web component: its attribute handling, the
    guarded start-up in `init`, the table of libretro environment command
    names, and the guards around save states and memory access. Fetching,
    the emulator core and the canvas are outside the model; their outcomes
    are parameters. */
module SnesEmulator {
  import opened Wrappers
  import opened Text
  import Controller
  import MapTools

  type Byte = MapTools.Byte

  /** Whether a libretro field name is an environment command. */
  predicate IsEnvironmentName(name: string) {
    StartsWith(name, "ENVIRONMENT")
  }

  /** The loop building `environment_command_names`: every field of the
      core module whose name starts with "ENVIRONMENT" maps its value back to
      its name; other fields are skipped; where two names share a value the
      later one wins. */
  method EnvironmentCommandNames(retro: seq<(string, int)>) returns (names: map<int, string>)
    ensures forall v :: v in names <==> exists k :: 0 <= k < |retro| && IsEnvironmentName(retro[k].0) && retro[k].1 == v
    ensures forall v :: v in names ==>
      exists k :: 0 <= k < |retro| && IsEnvironmentName(retro[k].0) && retro[k].1 == v && names[v] == retro[k].0
                  && forall j :: k < j < |retro| && IsEnvironmentName(retro[j].0) ==> retro[j].1 != v
  {
    names := map[];
    var i := 0;
    while i < |retro|
      invariant 0 <= i <= |retro|
      invariant forall v :: v in names <==> exists k :: 0 <= k < i && IsEnvironmentName(retro[k].0) && retro[k].1 == v
      invariant forall v :: v in names ==>
        exists k :: 0 <= k < i && IsEnvironmentName(retro[k].0) && retro[k].1 == v && names[v] == retro[k].0
                    && forall j :: k < j < i && IsEnvironmentName(retro[j].0) ==> retro[j].1 != v
    {
      var (k, v) := retro[i];
      if IsEnvironmentName(k) {
        names := names[v := k];
      }
      i := i + 1;
    }
  }

  /** What `init` did: stopped because there is no ROM URL; failed because
      the ROM could not be fetched; failed because the core threw while
      loading the ROM or restoring the state (both rejections propagate);
      or started the emulator. */
  datatype InitOutcome = NoRom | RomFetchFailed | CoreFailed | Started

  /** The state `init` loads: the bytes at the state URL when one is set;
      a failed state fetch is caught and leaves none. */
  function StateFetch(stateUrl: Option<string>, fetch: string -> Option<seq<Byte>>): (state: Option<seq<Byte>>)
    ensures state.Some? <==> Truthy(stateUrl) && fetch(stateUrl.value).Some?
    ensures state.Some? ==> state == fetch(stateUrl.value)
  {
    if Truthy(stateUrl) then fetch(stateUrl.value) else None
  }

  /** The work RAM once `setupEmulator` has run `load_game` and, when there
      is a state, `unserialize`; None when either throws. `boot` gives the
      RAM after loading a ROM and `restore` the RAM a save state holds. */
  function StartRam(rom: seq<Byte>, state: Option<seq<Byte>>,
                    boot: seq<Byte> -> Option<seq<Byte>>, restore: seq<Byte> -> Option<seq<Byte>>): (ram: Option<seq<Byte>>)
    ensures ram.Some? <==> boot(rom).Some? && (state.Some? ==> restore(state.value).Some?)
    ensures ram.Some? && state.Some? ==> ram == restore(state.value)
    ensures ram.Some? && state.None? ==> ram == boot(rom)
  {
    match boot(rom)
    case None => None
    case Some(ram) => if state.Some? then restore(state.value) else Some(ram)
  }

  /** The outcome of `init` for the given URLs. */
  function InitOutcomeOf(romUrl: Option<string>, stateUrl: Option<string>, fetch: string -> Option<seq<Byte>>,
                         boot: seq<Byte> -> Option<seq<Byte>>, restore: seq<Byte> -> Option<seq<Byte>>): (outcome: InitOutcome)
    ensures outcome == NoRom <==> !Truthy(romUrl)
    ensures outcome == RomFetchFailed <==> Truthy(romUrl) && fetch(romUrl.value).None?
    ensures outcome == CoreFailed <==>
      Truthy(romUrl) && fetch(romUrl.value).Some?
      && StartRam(fetch(romUrl.value).value, StateFetch(stateUrl, fetch), boot, restore).None?
    ensures outcome == Started <==>
      Truthy(romUrl) && fetch(romUrl.value).Some?
      && StartRam(fetch(romUrl.value).value, StateFetch(stateUrl, fetch), boot, restore).Some?
  {
    if !Truthy(romUrl) then NoRom
    else match fetch(romUrl.value)
      case None => RomFetchFailed
      case Some(rom) =>
        if StartRam(rom, StateFetch(stateUrl, fetch), boot, restore).None? then CoreFailed else Started
  }

  /** A state URL that cannot be fetched does not stop `init`: the
      emulator starts without a state. */
  lemma MissingStateStillStarts(romUrl: Option<string>, stateUrl: Option<string>, fetch: string -> Option<seq<Byte>>,
                                boot: seq<Byte> -> Option<seq<Byte>>, restore: seq<Byte> -> Option<seq<Byte>>)
    requires Truthy(romUrl) && fetch(romUrl.value).Some? && boot(fetch(romUrl.value).value).Some?
    requires !Truthy(stateUrl) || fetch(stateUrl.value).None?
    ensures InitOutcomeOf(romUrl, stateUrl, fetch, boot, restore) == Started
    ensures StartRam(fetch(romUrl.value).value, StateFetch(stateUrl, fetch), boot, restore) == boot(fetch(romUrl.value).value)
  {
  }

  /** A state the core refuses stops `init`, although the ROM loaded. */
  lemma RejectedStateFailsInit(romUrl: Option<string>, stateUrl: Option<string>, fetch: string -> Option<seq<Byte>>,
                               boot: seq<Byte> -> Option<seq<Byte>>, restore: seq<Byte> -> Option<seq<Byte>>)
    requires Truthy(romUrl) && fetch(romUrl.value).Some?
    requires Truthy(stateUrl) && fetch(stateUrl.value).Some? && restore(fetch(stateUrl.value).value).None?
    ensures InitOutcomeOf(romUrl, stateUrl, fetch, boot, restore) == CoreFailed
  {
  }

  /** The emulator object `setupEmulator` builds: the input state the key
      handlers write (see `Controller.Emulator`) and its view of the core.
      Every emulator object refers to the one core the imported module
      holds, so a later `setupEmulator` changes what an earlier object
      sees: `memory` is the work RAM of that shared core, and `pollsInput`
      says whether the core's input callback still reads this object's
      `input` (a later run registers a callback over its own dictionary).
      `acceptedStates` lists the states `unserialize` accepted through this
      object; a state it rejected is not recorded. */
  class Core {
    const input: Controller.Emulator
    var retro: bool
    var memory: seq<Byte>
    var pollsInput: bool
    var acceptedStates: seq<seq<Byte>>

    constructor (wram: seq<Byte>, states: seq<seq<Byte>>)
      ensures fresh(input) && input.inputState == map[] && !input.fullscreen
      ensures retro && memory == wram && pollsInput && acceptedStates == states
    {
      input := new Controller.Emulator();
      retro := true;
      memory := wram;
      pollsInput := true;
      acceptedStates := states;
    }
  }

  class SnesEmulatorElement {
    var romUrl: Option<string>
    var stateUrl: Option<string>
    var romName: Option<string>
    var romBytes: Option<seq<Byte>>
    var stateBytes: Option<seq<Byte>>
    var emulator: Core?
    /** Properties created by assigning to a computed name. */
    var expandos: map<string, Option<string>>
    /** Whether the rendered markup shows the "No ROM specified" notice. */
    var missingRomNotice: bool

    /** The constructor sets every field to null and renders. */
    constructor ()
      ensures romUrl.None? && stateUrl.None? && romName.None?
      ensures romBytes.None? && stateBytes.None? && emulator == null
      ensures expandos == map[] && missingRomNotice
    {
      romUrl, stateUrl, romName := None, None, None;
      romBytes, stateBytes := None, None;
      emulator := null;
      expandos := map[];
      missingRomNotice := true;
    }

    /** `render`: the notice is shown exactly when there is no ROM URL. */
    method Render()
      modifies this`missingRomNotice
      ensures missingRomNotice == !Truthy(romUrl)
    {
      missingRomNotice := !Truthy(romUrl);
    }

    /** The state `init` leaves for a given outcome, read against the state
        before the call, where `prev` was the emulator. Without a ROM or
        with a failed ROM fetch nothing changes. Once the ROM is fetched
        both byte fields are stored and `setupEmulator` runs on the shared
        core: a previous emulator's input is no longer polled, and its
        memory is the core's RAM (the booted ROM's when `load_game`
        succeeded but `unserialize` threw; unknown when `load_game` threw).
        Only a core that did not throw becomes the new emulator, with fresh
        input state and the RAM `StartRam` gives. */
    twostate predicate InitDone(outcome: InitOutcome, prev: Core?, fetch: string -> Option<seq<Byte>>,
                                boot: seq<Byte> -> Option<seq<Byte>>, restore: seq<Byte> -> Option<seq<Byte>>)
      reads this, emulator, prev, if emulator != null then {emulator.input} else {}
    {
      && prev == old(emulator)
      && missingRomNotice == !Truthy(romUrl)
      && (outcome == NoRom || outcome == RomFetchFailed ==>
            && romBytes == old(romBytes) && stateBytes == old(stateBytes) && emulator == prev
            && (prev != null ==> unchanged(prev)))
      && (outcome == CoreFailed || outcome == Started ==>
            && Truthy(romUrl) && romBytes == fetch(romUrl.value) && romBytes.Some?
            && stateBytes == StateFetch(stateUrl, fetch)
            && (prev != null ==>
                  && !prev.pollsInput && prev.retro == old(prev.retro)
                  && prev.acceptedStates == old(prev.acceptedStates)))
      && (outcome == CoreFailed ==>
            && emulator == prev
            && (prev != null && boot(romBytes.value).Some? ==> prev.memory == boot(romBytes.value).value))
      && (outcome == Started ==>
            && romBytes.Some?
            && emulator != null && fresh(emulator) && fresh(emulator.input)
            && emulator.retro && emulator.pollsInput
            && emulator.input.inputState == map[] && !emulator.input.fullscreen
            && StartRam(romBytes.value, stateBytes, boot, restore).Some?
            && emulator.memory == StartRam(romBytes.value, stateBytes, boot, restore).value
            && emulator.acceptedStates == (if stateBytes.Some? then [stateBytes.value] else [])
            && (prev != null ==> prev.memory == emulator.memory))
    }

    /** `init`. `fetch` gives the bytes a URL serves, or None when the
        response is not ok; `boot` and `restore` stand for the core's
        `load_game` and `unserialize` (see `StartRam`). */
    method Init(fetch: string -> Option<seq<Byte>>,
                boot: seq<Byte> -> Option<seq<Byte>>, restore: seq<Byte> -> Option<seq<Byte>>) returns (outcome: InitOutcome)
      modifies this, emulator
      ensures romUrl == old(romUrl) && stateUrl == old(stateUrl) && romName == old(romName)
      ensures expandos == old(expandos)
      ensures outcome == InitOutcomeOf(romUrl, stateUrl, fetch, boot, restore)
      ensures InitDone(outcome, old(emulator), fetch, boot, restore)
    {
      Render();
      if !Truthy(romUrl) {
        return NoRom;
      }
      var rom := fetch(romUrl.value);
      if rom.None? {
        return RomFetchFailed;
      }
      romBytes := rom;
      stateBytes := StateFetch(stateUrl, fetch);
      var prev := emulator;
      if prev != null {
        prev.pollsInput := false;
      }
      var booted := boot(rom.value);
      if booted.None? {
        return CoreFailed;
      }
      if prev != null {
        prev.memory := booted.value;
      }
      var ram := StartRam(rom.value, stateBytes, boot, restore);
      if ram.None? {
        return CoreFailed;
      }
      if prev != null {
        prev.memory := ram.value;
      }
      var core := new Core(ram.value, if stateBytes.Some? then [stateBytes.value] else []);
      emulator := core;
      return Started;
    }

    /** `connectedCallback`: copies the three attributes, then runs `init`
        on them. */
    method Connected(romAttr: Option<string>, stateAttr: Option<string>, nameAttr: Option<string>,
                     fetch: string -> Option<seq<Byte>>,
                     boot: seq<Byte> -> Option<seq<Byte>>, restore: seq<Byte> -> Option<seq<Byte>>) returns (outcome: InitOutcome)
      modifies this, emulator
      ensures romUrl == romAttr && stateUrl == stateAttr && romName == nameAttr
      ensures expandos == old(expandos)
      ensures outcome == InitOutcomeOf(romAttr, stateAttr, fetch, boot, restore)
      ensures InitDone(outcome, old(emulator), fetch, boot, restore)
    {
      romUrl, stateUrl, romName := romAttr, stateAttr, nameAttr;
      outcome := Init(fetch, boot, restore);
    }

    /** `attributeChangedCallback`: only 'rom-url' and 'state-url' are acted
        on; the value goes to the property named by replacing the first '-'
        with "Url" ("romUrlurl", "stateUrlurl"), so `romUrl` and `stateUrl`
        keep their values; a non-empty 'rom-url' runs `init` again, which
        therefore sees the old URLs. */
    method AttributeChanged(name: string, newValue: Option<string>, fetch: string -> Option<seq<Byte>>,
                            boot: seq<Byte> -> Option<seq<Byte>>, restore: seq<Byte> -> Option<seq<Byte>>)
      returns (outcome: Option<InitOutcome>)
      modifies this, emulator
      ensures romUrl == old(romUrl) && stateUrl == old(stateUrl) && romName == old(romName)
      ensures name != "rom-url" && name != "state-url" ==> expandos == old(expandos)
      ensures name == "rom-url" || name == "state-url" ==>
        expandos == old(expandos)[ReplaceFirst(name, '-', "Url") := newValue]
      ensures outcome.Some? <==> name == "rom-url" && Truthy(newValue)
      ensures outcome.None? ==>
        && romBytes == old(romBytes) && stateBytes == old(stateBytes)
        && emulator == old(emulator) && missingRomNotice == old(missingRomNotice)
        && (emulator != null ==> unchanged(emulator))
      ensures outcome.Some? ==>
        outcome.value == InitOutcomeOf(old(romUrl), old(stateUrl), fetch, boot, restore)
        && InitDone(outcome.value, old(emulator), fetch, boot, restore)
    {
      outcome := None;
      if name == "rom-url" || name == "state-url" {
        expandos := expandos[ReplaceFirst(name, '-', "Url") := newValue];
        if name == "rom-url" && Truthy(newValue) {
          var o := Init(fetch, boot, restore);
          outcome := Some(o);
        }
      }
    }

    /** `getSaveState`: null without an emulator or core; otherwise what
        `serialize` returns (None when it throws). */
    method GetSaveState(serialized: Option<seq<Byte>>) returns (state: Option<seq<Byte>>)
      ensures emulator == null || !emulator.retro ==> state.None?
      ensures emulator != null && emulator.retro ==> state == serialized
    {
      if emulator == null || !emulator.retro {
        return None;
      }
      return serialized;
    }

    /** `loadSaveState`: does nothing without an emulator, a core or a
        state; otherwise the state is handed to `unserialize`, which
        replaces the work RAM with the one the state holds, or throws
        (`restore` gives None; an alert is shown and nothing changes). */
    method LoadSaveState(state: Option<seq<Byte>>, restore: seq<Byte> -> Option<seq<Byte>>)
      modifies emulator
      ensures emulator == null || !emulator.retro || state.None? || restore(state.value).None? ==>
        emulator == null || unchanged(emulator)
      ensures emulator != null && emulator.retro && state.Some? && restore(state.value).Some? ==>
        && emulator.acceptedStates == old(emulator.acceptedStates) + [state.value]
        && emulator.memory == restore(state.value).value
      ensures emulator != null ==>
        emulator.retro == old(emulator.retro) && emulator.pollsInput == old(emulator.pollsInput)
    {
      if emulator == null || !emulator.retro || state.None? {
        return;
      }
      var ram := restore(state.value);
      if ram.Some? {
        emulator.acceptedStates := emulator.acceptedStates + [state.value];
        emulator.memory := ram.value;
      }
    }

    /** `callWithMemory`: undefined without an emulator or core; otherwise
        `fn` applied to the work RAM (None also when `fn` throws). */
    method CallWithMemory<T>(fn: seq<Byte> -> Option<T>) returns (r: Option<T>)
      ensures emulator == null || !emulator.retro ==> r.None?
      ensures emulator != null && emulator.retro ==> r == fn(emulator.memory)
    {
      if emulator == null || !emulator.retro {
        return None;
      }
      return fn(emulator.memory);
    }
  }

  /** For an attribute named `head + "-" + tail` with no '-' in `head`, the
      callback writes to the property `head + "Url" + tail`, which is never
      the `head + "Url"` field `init` reads when `tail` is non-empty: for
      'rom-url' it is "romUrlurl", not `romUrl`. */
  lemma AttributeTarget(s: string, head: string, tail: string)
    requires s == head + "-" + tail && '-' !in head
    ensures ReplaceFirst(s, '-', "Url") == head + "Url" + tail
    ensures tail != [] ==> ReplaceFirst(s, '-', "Url") != head + "Url"
  {
    var i := IndexOf(s, '-');
    assert forall k :: 0 <= k < i ==> s[..i][k] == s[k] != '-';
    assert forall k :: 0 <= k < |head| ==> s[k] == head[k] != '-';
    assert s[|head|] == '-';
    assert i == |head|;
    assert s[..i] == head && s[i + 1..] == tail;
    assert |head + "Url" + tail| == |head| + 3 + |tail|;
  }
}

/** The older page helper: the chat log (`displayMessage`), the initial
    per-game player record and the Super Metroid item bit flags. Its key
    table and key handlers are the ones in `Controller`. */
module Helper {
  import opened Wrappers
  import opened Text

  // ----- Chat log -----

  /** The heading function-call results are shown under: the wrench emoji as
      the file's bytes decode, U+00F0 U+0178 U+201D U+00A7. */
  const Wrench: string := "\U{00F0}\U{0178}\U{201D}\U{00A7}"

  /** A `history` entry `{from, text}`. */
  datatype Entry = Entry(from: string, text: string)

  /** A message bubble: the header's class and heading, and the body, which is
      either the Markdown rendering or the message itself. */
  datatype Bubble = Bubble(className: string, heading: string, body: string)

  /** The caller's `history` array, which `displayMessage` pushes onto. */
  class ChatHistory {
    var entries: seq<Entry>

    constructor ()
      ensures entries == []
    {
      entries := [];
    }
  }

  /** The chat display element, which `displayMessage` appends to. */
  class ChatDisplay {
    var bubbles: seq<Bubble>

    constructor ()
      ensures bubbles == []
    {
      bubbles := [];
    }
  }

  const CoachSenders: seq<string> := ["Coach", "Expert", "Assistant"]

  /** The header class for a sender. */
  function ClassName(sender: string): (c: string)
    ensures c == "Player-name" <==> sender == "Player"
    ensures c == "Coach-name" <==> sender in CoachSenders
    ensures c == "FunctionCall" <==> sender == "FunctionCallResults"
    ensures c == "" <==> sender != "Player" && sender !in CoachSenders && sender != "FunctionCallResults"
  {
    if sender == "Player" then "Player-name"
    else if sender == "Coach" || sender == "Expert" || sender == "Assistant" then "Coach-name"
    else if sender == "FunctionCallResults" then "FunctionCall"
    else ""
  }

  /** The sender after relabelling: function-call results are shown and
      logged under the wrench; every other sender keeps its name. */
  function DisplayLabel(sender: string): (heading: string)
    ensures sender != "FunctionCallResults" ==> heading == sender
    ensures heading == Wrench <==> sender == "FunctionCallResults" || sender == Wrench
  {
    if sender == "FunctionCallResults" then Wrench else sender
  }

  /** Whether the message is inserted as it is instead of being rendered
      as Markdown. */
  predicate BypassesMarkdown(sender: string, message: string): (b: bool)
    ensures b <==> (sender == "FunctionCallResults" || sender == Wrench) && Contains(message, "<details>")
  {
    DisplayLabel(sender) == Wrench && Contains(message, "<details>")
  }

  /** Only function-call results (or a sender already named by the wrench)
      that hold a `<details>` element skip the Markdown renderer. */
  lemma BypassOnlyForFunctionResults(sender: string, message: string)
    ensures BypassesMarkdown(sender, message) <==>
      (sender == "FunctionCallResults" || sender == Wrench) && Contains(message, "<details>")
    ensures sender in CoachSenders || sender == "Player" ==> !BypassesMarkdown(sender, message)
  {
    if sender in CoachSenders || sender == "Player" {
      assert sender[0] != Wrench[0];
    }
  }

  /** Whether `displayMessage` gets as far as appending a bubble: the
      message is inserted as it is, or the Markdown renderer returns. */
  predicate Renders(sender: string, message: string, markdown: string -> Option<string>) {
    BypassesMarkdown(sender, message) || markdown(message).Some?
  }

  /** `displayMessage`. A falsy message (null or "") changes nothing. A
      Markdown renderer that throws (`markdown` gives None) leaves before
      anything is appended. Otherwise one bubble is appended to the
      display; then the "speak-response" checkbox is read, which throws
      when the page has none (`speakToggle` is false), before `history`
      is touched; when it exists, one entry is appended to `history`,
      whose earlier entries stay as they were. `ok` is false exactly when
      the call throws. */
  method DisplayMessage(sender: string, message: Option<string>, display: ChatDisplay, history: ChatHistory,
                        markdown: string -> Option<string>, speakToggle: bool) returns (ok: bool)
    modifies display, history
    ensures !Truthy(message) ==> ok && history.entries == old(history.entries) && display.bubbles == old(display.bubbles)
    ensures Truthy(message) ==> ok == (Renders(sender, message.value, markdown) && speakToggle)
    ensures Truthy(message) && Renders(sender, message.value, markdown) ==>
      display.bubbles == old(display.bubbles) +
        [Bubble(ClassName(sender), DisplayLabel(sender),
                if BypassesMarkdown(sender, message.value) then message.value else markdown(message.value).value)]
    ensures !(Truthy(message) && Renders(sender, message.value, markdown)) ==> display.bubbles == old(display.bubbles)
    ensures history.entries ==
      if Truthy(message) && ok then old(history.entries) + [Entry(DisplayLabel(sender), message.value)]
      else old(history.entries)
    ensures |old(history.entries)| <= |history.entries| <= |old(history.entries)| + 1
    ensures history.entries[..|old(history.entries)|] == old(history.entries)
  {
    if !Truthy(message) {
      return true;
    }
    var text := message.value;
    var className := ClassName(sender);
    var heading := DisplayLabel(sender);
    var body: string;
    if heading == Wrench && Contains(text, "<details>") {
      body := text;
    } else {
      var parsed := markdown(text);
      if parsed.None? {
        return false;
      }
      body := parsed.value;
    }
    display.bubbles := display.bubbles + [Bubble(className, heading, body)];
    if !speakToggle {
      return false;
    }
    history.entries := history.entries + [Entry(heading, text)];
    return true;
  }

  // ----- Per-game player record -----

  /** The record `initPlayerState` builds for each game it knows. */
  datatype PlayerState =
    | SuperMetroidState(energy: int, missiles: int, room: string, area: string, inventory: bv16, closestNode: Option<string>)
    | EarthBoundState(hp: int, sp: int, town: string)

  /** `initPlayerState`: a fresh record for "SuperMetroid" or "EarthBound",
      null for any other game (or none). */
  function InitPlayerState(game: Option<string>): (s: Option<PlayerState>)
    ensures s.Some? <==> game == Some("SuperMetroid") || game == Some("EarthBound")
    ensures s.Some? && game == Some("SuperMetroid") ==>
      s.value == SuperMetroidState(0, 0, "foo", "bar", 0, None)
    ensures s.Some? && game == Some("EarthBound") ==>
      s.value == EarthBoundState(0, 0, "Onett")
  {
    if game == Some("SuperMetroid") then
      Some(SuperMetroidState(0, 0, "foo", "bar", 0, None))
    else if game == Some("EarthBound") then
      Some(EarthBoundState(0, 0, "Onett"))
    else None
  }

  // ----- Item flags -----

  /** The items of `item_flags`. */
  datatype Item =
    | Varia | SpringBall | MorphBall | ScrewAttack | Gravity | HiJump
    | SpaceJump | Bomb | SpeedBooster | GrappleBeam | XRayScope

  /** The items in table order. */
  const AllItems: seq<Item> :=
    [Varia, SpringBall, MorphBall, ScrewAttack, Gravity, HiJump,
     SpaceJump, Bomb, SpeedBooster, GrappleBeam, XRayScope]

  /** An item's `key` in the table. */
  function ItemKey(it: Item): string {
    match it
    case Varia => "Varia"
    case SpringBall => "Spring Ball"
    case MorphBall => "Morph Ball"
    case ScrewAttack => "Screw Attack"
    case Gravity => "Gravity"
    case HiJump => "Hi-Jump"
    case SpaceJump => "Space Jump"
    case Bomb => "Bomb"
    case SpeedBooster => "Speed Booster"
    case GrappleBeam => "Grapple Beam"
    case XRayScope => "X-Ray Scope"
  }

  /** An item's `value` in the table: its bit in the collected-items word. */
  function ItemFlag(it: Item): bv16 {
    match it
    case Varia => 0x0001
    case SpringBall => 0x0002
    case MorphBall => 0x0004
    case ScrewAttack => 0x0008
    case Gravity => 0x0020
    case HiJump => 0x0100
    case SpaceJump => 0x0200
    case Bomb => 0x1000
    case SpeedBooster => 0x2000
    case GrappleBeam => 0x4000
    case XRayScope => 0x8000
  }

  /** Every bit the table uses. */
  const ItemMask: bv16 := 0xF32F

  /** Each value is one bit and no two items share a bit. */
  lemma ItemFlagsAreDistinctBits()
    ensures forall it :: ItemFlag(it) != 0 && ItemFlag(it) & (ItemFlag(it) - 1) == 0
    ensures forall a, b | a != b :: ItemFlag(a) & ItemFlag(b) == 0
  {
  }

  /** No two items share a key. */
  lemma ItemKeysDistinct(a: Item, b: Item)
    requires a != b
    ensures ItemKey(a) != ItemKey(b)
  {
    if |ItemKey(a)| == |ItemKey(b)| {
      assert ItemKey(a)[0] != ItemKey(b)[0];
    }
  }

  /** The collected-items word for a set of items: the OR of their bits. */
  function EncodeItems(items: set<Item>): bv16 {
    ItemBits(Varia in items, SpringBall in items, MorphBall in items, ScrewAttack in items,
             Gravity in items, HiJump in items, SpaceJump in items, Bomb in items,
             SpeedBooster in items, GrappleBeam in items, XRayScope in items)
  }

  /** The OR of the table values whose flag is true, in table order. */
  function ItemBits(varia: bool, springBall: bool, morphBall: bool, screwAttack: bool,
                    gravity: bool, hiJump: bool, spaceJump: bool, bomb: bool,
                    speedBooster: bool, grappleBeam: bool, xRayScope: bool): bv16 {
    (if varia then 0x0001 else 0)
    | (if springBall then 0x0002 else 0)
    | (if morphBall then 0x0004 else 0)
    | (if screwAttack then 0x0008 else 0)
    | (if gravity then 0x0020 else 0)
    | (if hiJump then 0x0100 else 0)
    | (if spaceJump then 0x0200 else 0)
    | (if bomb then 0x1000 else 0)
    | (if speedBooster then 0x2000 else 0)
    | (if grappleBeam then 0x4000 else 0)
    | (if xRayScope then 0x8000 else 0)
  }

  /** A single item encodes to its table value, and the empty set to 0. */
  lemma EncodeSingleItem(it: Item)
    ensures EncodeItems({it}) == ItemFlag(it)
    ensures EncodeItems({}) == 0
  {
  }

  /** The items whose bit is set in `v`. */
  function DecodeItems(v: bv16): (items: set<Item>)
    ensures forall it :: it in items <==> v & ItemFlag(it) != 0
  {
    set it | it in AllItems && v & ItemFlag(it) != 0
  }

  /** An item's bit is set in the word for a set exactly when the item is in
      the set. */
  lemma EncodeItemsBit(items: set<Item>, it: Item)
    ensures EncodeItems(items) & ItemFlag(it) != 0 <==> it in items
  {
    FlagAsBits(it);
    ItemBitsMeet(Varia in items, SpringBall in items, MorphBall in items, ScrewAttack in items,
                 Gravity in items, HiJump in items, SpaceJump in items, Bomb in items,
                 SpeedBooster in items, GrappleBeam in items, XRayScope in items,
                 it == Varia, it == SpringBall, it == MorphBall, it == ScrewAttack,
                 it == Gravity, it == HiJump, it == SpaceJump, it == Bomb,
                 it == SpeedBooster, it == GrappleBeam, it == XRayScope);
  }

  /** An item's value is the OR with only that item's flag true. */
  lemma FlagAsBits(it: Item)
    ensures ItemFlag(it) == ItemBits(it == Varia, it == SpringBall, it == MorphBall, it == ScrewAttack,
                                     it == Gravity, it == HiJump, it == SpaceJump, it == Bomb,
                                     it == SpeedBooster, it == GrappleBeam, it == XRayScope)
  {
  }

  /** Two ORs of table values share a bit exactly when some item's flag is
      true in both (`a0`..`a10` and `b0`..`b10` follow the table order). */
  lemma ItemBitsMeet(a0: bool, a1: bool, a2: bool, a3: bool, a4: bool, a5: bool,
                     a6: bool, a7: bool, a8: bool, a9: bool, a10: bool,
                     b0: bool, b1: bool, b2: bool, b3: bool, b4: bool, b5: bool,
                     b6: bool, b7: bool, b8: bool, b9: bool, b10: bool)
    ensures ItemBits(a0, a1, a2, a3, a4, a5, a6, a7, a8, a9, a10)
              & ItemBits(b0, b1, b2, b3, b4, b5, b6, b7, b8, b9, b10) != 0
      <==> (a0 && b0) || (a1 && b1) || (a2 && b2) || (a3 && b3) || (a4 && b4) || (a5 && b5)
           || (a6 && b6) || (a7 && b7) || (a8 && b8) || (a9 && b9) || (a10 && b10)
  {
  }


  /** OR-ing the bits of any set of items decodes back to that set. */
  lemma DecodeEncodeItems(items: set<Item>)
    ensures DecodeItems(EncodeItems(items)) == items
  {
    forall it
      ensures it in DecodeItems(EncodeItems(items)) <==> it in items
    {
      EncodeItemsBit(items, it);
    }
  }

  /** Encoding the decoded items gives back the word, less any bit no item
      uses. */
  lemma EncodeDecodeItems(v: bv16)
    ensures EncodeItems(DecodeItems(v)) == v & ItemMask
  {
  }

  /** No word for a set of items has a bit outside the mask. */
  lemma EncodeItemsWithinMask(items: set<Item>)
    ensures EncodeItems(items) & ItemMask == EncodeItems(items)
  {
  }

  /** The worked example: Morph Ball and Varia together are 0x0005, and a
      fresh Super Metroid record holds no items. */
  lemma MorphBallAndVaria()
    ensures EncodeItems({MorphBall, Varia}) == 0x0005
    ensures DecodeItems(0x0005) == {MorphBall, Varia}
    ensures DecodeItems(InitPlayerState(Some("SuperMetroid")).value.inventory) == {}
  {
    DecodeEncodeItems({MorphBall, Varia});
  }
}

/** Text components and their network NBT form. */
module TextComponent {
  import opened Bytes
  import opened Codec
  import opened Mutf8
  import opened Nbt
  import opened NbtProofs
  import opened NbtIo

  datatype Component = Component(
    text: Text, color: Text,
    bold: Option<bool>, italic: Option<bool>, underlined: Option<bool>,
    strikethrough: Option<bool>, obfuscated: Option<bool>,
    extra: seq<Component>)

  predicate IsSimple(c: Component) {
    && c.color == [] && c.bold.None? && c.italic.None? && c.underlined.None?
    && c.strikethrough.None? && c.obfuscated.None? && c.extra == []
  }

  // "text", "color", "bold", "italic", "underlined", "strikethrough", "obfuscated", "extra"
  const TEXT: Text := [0x74, 0x65, 0x78, 0x74]
  const COLOR: Text := [0x63, 0x6F, 0x6C, 0x6F, 0x72]
  const BOLD: Text := [0x62, 0x6F, 0x6C, 0x64]
  const ITALIC: Text := [0x69, 0x74, 0x61, 0x6C, 0x69, 0x63]
  const UNDERLINED: Text := [0x75, 0x6E, 0x64, 0x65, 0x72, 0x6C, 0x69, 0x6E, 0x65, 0x64]
  const STRIKETHROUGH: Text := [0x73, 0x74, 0x72, 0x69, 0x6B, 0x65, 0x74, 0x68, 0x72, 0x6F, 0x75, 0x67, 0x68]
  const OBFUSCATED: Text := [0x6F, 0x62, 0x66, 0x75, 0x73, 0x63, 0x61, 0x74, 0x65, 0x64]
  const EXTRA: Text := [0x65, 0x78, 0x74, 0x72, 0x61]

  /** A named field of the compound and its tag, when it is sent at all. */
  datatype Slot = Slot(name: Text, tag: Option<Tag>)

  function BoolTag(v: Option<bool>): Option<Tag> {
    match v
    case None => None
    case Some(b) => Some(TByte(if b then 1 else 0))
  }

  function ExtraTag(c: Component): Option<Tag>
    decreases c, 1
  {
    if c.extra == [] then None else Some(TList(TAG_COMPOUND, ExtraTags(c.extra)))
  }

  function Slots(c: Component): (s: seq<Slot>)
    ensures |s| == 8
    decreases c, 2
  {
    [ Slot(TEXT, Some(TString(c.text))),
      Slot(COLOR, if c.color == [] then None else Some(TString(c.color))),
      Slot(BOLD, BoolTag(c.bold)), Slot(ITALIC, BoolTag(c.italic)),
      Slot(UNDERLINED, BoolTag(c.underlined)), Slot(STRIKETHROUGH, BoolTag(c.strikethrough)),
      Slot(OBFUSCATED, BoolTag(c.obfuscated)), Slot(EXTRA, ExtraTag(c)) ]
  }

  function ExtraTags(cs: seq<Component>): (ts: seq<Tag>)
    ensures |ts| == |cs|
    decreases cs, 0
  {
    if cs == [] then [] else [CompoundTag(cs[0])] + ExtraTags(cs[1..])
  }

  /** Setting the sent slots one after the other. */
  function SetAll(slots: seq<Slot>): seq<Entry> {
    if slots == [] then []
    else SetSlot(SetAll(slots[..|slots| - 1]), slots[|slots| - 1])
  }

  function SetSlot(es: seq<Entry>, s: Slot): seq<Entry> {
    if s.tag.None? then es else SetEntry(es, s.name, s.tag.value)
  }

  function CompoundTag(c: Component): Tag
    decreases c, 3
  {
    TCompound(SetAll(Slots(c)))
  }

  /** Unstyled text is a plain string; everything else, and every child, a compound. */
  function NbtTag(c: Component): Tag {
    if IsSimple(c) then TString(c.text) else CompoundTag(c)
  }

  // ---- Which components fit the wire ----

  predicate Fits(c: Component)
    decreases c, 1
  {
    FitsString(c.text) && FitsString(c.color) && |c.extra| <= MAX_I32 && FitsAll(c.extra)
  }

  predicate FitsAll(cs: seq<Component>)
    decreases cs, 0
  {
    cs == [] || (Fits(cs[0]) && FitsAll(cs[1..]))
  }

  /** How many levels of children hang below a component. */
  function Levels(c: Component): nat
    decreases c, 1
  {
    LevelsAll(c.extra)
  }

  function LevelsAll(cs: seq<Component>): nat
    decreases cs, 0
  {
    if cs == [] then 0 else Max(1 + Levels(cs[0]), LevelsAll(cs[1..]))
  }

  // ---- Properties of slot lists ----

  predicate DistinctSlots(slots: seq<Slot>) {
    forall i, j :: 0 <= i < j < |slots| ==> slots[i].name != slots[j].name
  }

  /** A sent tag that is encodable, in normal form, and under a name that fits. */
  predicate GoodSlot(s: Slot) {
    && FitsString(s.name)
    && (s.tag.Some? ==> Shaped(s.tag.value) && StringsFit(s.tag.value) && Norm(s.tag.value) == s.tag.value)
  }

  function SlotNesting(slots: seq<Slot>): nat {
    if slots == [] then 0
    else
      var s := slots[|slots| - 1];
      Max(SlotNesting(slots[..|slots| - 1]), if s.tag.None? then 0 else 1 + Nesting(s.tag.value))
  }

  lemma {:induction false} EntriesSnoc(es: seq<Entry>, e: Entry)
    ensures NestingEntries(es + [e]) == Max(NestingEntries(es), 1 + Nesting(e.tag))
    ensures NormEntries(es + [e]) == NormEntries(es) + [Entry(e.name, Norm(e.tag))]
    ensures StringsFitEntries(es + [e]) <==> StringsFitEntries(es) && FitsString(e.name) && StringsFit(e.tag)
  {
    hide Norm, Nesting, StringsFit, FitsString;
    if es == [] {
      assert es + [e] == [e];
    } else {
      EntriesSnoc(es[1..], e);
      assert (es + [e])[1..] == es[1..] + [e];
    }
  }

  lemma {:induction false} SetAllNames(slots: seq<Slot>, m: Text)
    requires forall i :: 0 <= i < |slots| ==> slots[i].name != m
    ensures !HasName(SetAll(slots), m)
  {
    if slots != [] {
      var init, s := slots[..|slots| - 1], slots[|slots| - 1];
      SetAllNames(init, m);
      if s.tag.Some? {
        SetNames(SetAll(init), s.name, s.tag.value, m);
      }
    }
  }

  lemma {:induction false} SetAllGood(slots: seq<Slot>)
    requires DistinctSlots(slots) && forall i :: 0 <= i < |slots| ==> GoodSlot(slots[i])
    ensures DistinctNames(SetAll(slots)) && ShapedEntries(SetAll(slots)) && StringsFitEntries(SetAll(slots))
    ensures NormEntries(SetAll(slots)) == SetAll(slots)
    ensures NestingEntries(SetAll(slots)) == SlotNesting(slots)
  {
    if slots != [] {
      hide FitsString, Shaped, StringsFit, Norm, Nesting, HasName;
      hide ShapedEntries, StringsFitEntries, NormEntries, NestingEntries, DistinctNames, SetEntry;
      var init, s := slots[..|slots| - 1], slots[|slots| - 1];
      SetAllGood(init);
      if s.tag.Some? {
        SetAllNames(init, s.name);
        GoodStep(SetAll(init), s);
      }
    }
  }

  lemma GoodStep(es: seq<Entry>, s: Slot)
    requires GoodSlot(s) && s.tag.Some? && !HasName(es, s.name)
    requires DistinctNames(es) && ShapedEntries(es) && StringsFitEntries(es) && NormEntries(es) == es
    ensures DistinctNames(SetSlot(es, s)) && ShapedEntries(SetSlot(es, s)) && StringsFitEntries(SetSlot(es, s))
    ensures NormEntries(SetSlot(es, s)) == SetSlot(es, s)
    ensures NestingEntries(SetSlot(es, s)) == Max(NestingEntries(es), 1 + Nesting(s.tag.value))
  {
    hide FitsString, Shaped, StringsFit, Norm, Nesting, HasName;
    hide ShapedEntries, StringsFitEntries, NormEntries, NestingEntries, DistinctNames, SetEntry;
    SetFresh(es, s.name, s.tag.value);
    SetKeeps(es, s.name, s.tag.value);
    EntriesSnoc(es, Entry(s.name, s.tag.value));
  }

  lemma {:induction false} EncodedBound(s: Text)
    ensures |EncodeMutf8(s)| <= 6 * |s|
  {
    UnitsBound(s);
    BytesBound(Encode16(s));
  }

  lemma {:induction false} UnitsBound(s: Text)
    ensures |Encode16(s)| <= 2 * |s|
  {
    if s != [] {
      UnitsBound(s[1..]);
    }
  }

  lemma {:induction false} BytesBound(us: seq<u16>)
    ensures |UnitsBytes(us)| <= 3 * |us|
  {
    if us != [] {
      BytesBound(us[1..]);
    }
  }

  lemma NamesFit(c: Component)
    ensures DistinctSlots(Slots(c))
    ensures forall i :: 0 <= i < 8 ==> FitsString(Slots(c)[i].name)
  {
    hide Slots, FitsString;
    SlotNames(c);
    NamesDiffer();
    forall i | 0 <= i < 8 ensures FitsString(NAMES[i]) {
      ShortFits(NAMES[i]);
    }
  }

  lemma ShortFits(s: Text)
    requires |s| <= 13
    ensures FitsString(s)
  {
    EncodedBound(s);
  }

  const NAMES: seq<Text> := [TEXT, COLOR, BOLD, ITALIC, UNDERLINED, STRIKETHROUGH, OBFUSCATED, EXTRA]

  lemma SlotNames(c: Component)
    ensures forall i :: 0 <= i < 8 ==> Slots(c)[i].name == NAMES[i]
  {
    hide ExtraTag, BoolTag;
  }

  lemma NamesDiffer()
    ensures forall i, j :: 0 <= i < j < 8 ==> NAMES[i] != NAMES[j]
    ensures forall i :: 0 <= i < 8 ==> |NAMES[i]| <= 13
  {
    assert forall i, j :: 0 <= i < j < 8 ==> NAMES[i][0] != NAMES[j][0];
  }

  // ---- The component's tag ----

  /** The compound is encodable and in normal form. */
  lemma {:induction false} CompoundGood(c: Component)
    requires Fits(c)
    ensures Shaped(CompoundTag(c)) && StringsFit(CompoundTag(c)) && Norm(CompoundTag(c)) == CompoundTag(c)
    decreases c, 1
  {
    ExtraGood(c.extra);
    hide SetAll, Slots, ExtraTags, GoodSlot, DistinctSlots;
    NamesFit(c);
    SlotsGood(c);
    SetAllGood(Slots(c));
    CompoundUnfolds(SetAll(Slots(c)), 0, []);
  }

  lemma {:induction false} ExtraGood(cs: seq<Component>)
    requires FitsAll(cs)
    ensures ShapedElems(ExtraTags(cs), TAG_COMPOUND) && StringsFitElems(ExtraTags(cs))
    ensures NormElems(ExtraTags(cs)) == ExtraTags(cs)
    decreases cs, 0
  {
    if cs != [] {
      CompoundGood(cs[0]);
      ExtraGood(cs[1..]);
      hide CompoundTag, Shaped, StringsFit, Norm, Fits;
      var ts := ExtraTags(cs);
      assert ts[0] == CompoundTag(cs[0]) && ts[1..] == ExtraTags(cs[1..]);
    }
  }

  /** Each level of children costs two levels of nesting: the list and its compounds. */
  lemma {:induction false} CompoundNesting(c: Component)
    requires Fits(c)
    ensures Nesting(CompoundTag(c)) == 1 + 2 * Levels(c)
    decreases c, 1
  {
    hide SetAll, Slots, ExtraTags, NestingEntries, NestingElems, Nesting, SlotNesting, Levels, LevelsAll, Fits, FitsAll;
    LevelsOf(c);
    ExtraNesting(c.extra);
    SetAllNesting(c);
    CompoundUnfolds(SetAll(Slots(c)), 0, []);
    NestingOfSlots(c);
    NoLevels();
  }

  lemma LevelsOf(c: Component)
    ensures Levels(c) == LevelsAll(c.extra) && (Fits(c) ==> FitsAll(c.extra))
  {
  }

  lemma NoLevels()
    ensures LevelsAll([]) == 0
  {
  }

  lemma SetAllNesting(c: Component)
    requires Fits(c)
    ensures NestingEntries(SetAll(Slots(c))) == SlotNesting(Slots(c))
  {
    ExtraGood(c.extra);
    hide SetAll, Slots, ExtraTags, GoodSlot, DistinctSlots;
    NamesFit(c);
    SlotsGood(c);
    SetAllGood(Slots(c));
  }

  lemma {:induction false} ExtraNesting(cs: seq<Component>)
    requires FitsAll(cs)
    ensures NestingElems(ExtraTags(cs)) == if cs == [] then 0 else 2 * LevelsAll(cs)
    decreases cs, 0
  {
    if cs != [] {
      CompoundNesting(cs[0]);
      ExtraNesting(cs[1..]);
      hide CompoundTag, Nesting, Fits;
      var ts := ExtraTags(cs);
      assert ts[0] == CompoundTag(cs[0]) && ts[1..] == ExtraTags(cs[1..]);
    }
  }

  lemma SlotsGood(c: Component)
    requires Fits(c)
    requires ShapedElems(ExtraTags(c.extra), TAG_COMPOUND) && StringsFitElems(ExtraTags(c.extra))
    requires NormElems(ExtraTags(c.extra)) == ExtraTags(c.extra)
    ensures forall i :: 0 <= i < 8 ==> GoodSlot(Slots(c)[i])
  {
    hide EncodeMutf8, ExtraTags, Fits;
    assert FitsString(c.text) && FitsString(c.color) && |c.extra| <= MAX_I32 by { UnfoldFits(c); }
    NamesFit(c);
    forall i | 0 <= i < 8 ensures GoodSlot(Slots(c)[i]) {
    }
  }

  lemma UnfoldFits(c: Component)
    requires Fits(c)
    ensures FitsString(c.text) && FitsString(c.color) && |c.extra| <= MAX_I32
  {
  }

  lemma {:induction false} FlatNesting(slots: seq<Slot>)
    requires slots != [] && slots[0].tag.Some?
    requires forall i :: 0 <= i < |slots| && slots[i].tag.Some? ==> Nesting(slots[i].tag.value) == 0
    ensures SlotNesting(slots) == 1
  {
    var init := slots[..|slots| - 1];
    if init == [] {
      assert SlotNesting(init) == 0;
    } else {
      FlatNesting(init);
    }
  }

  lemma NestingOfSlots(c: Component)
    ensures SlotNesting(Slots(c)) == if c.extra == [] then 1 else Max(1, 1 + NestingElems(ExtraTags(c.extra)))
  {
    hide ExtraTags, NestingElems;
    FlatNesting(Slots(c)[..7]);
  }

  /** Every component whose strings fit reads back as the very same tag up to 255
    * levels of children, and is refused as too deep beyond. */
  lemma ComponentRoundTrip(c: Component, rest: seq<u8>)
    requires Fits(c)
    ensures ParseNetwork(NetworkBytes(Some(NbtTag(c))) + rest)
            == if Levels(c) <= 255 then Ok(Some(NbtTag(c)), rest) else Err(NbtTooDeep)
  {
    if !IsSimple(c) {
      CompoundGood(c);
      CompoundNesting(c);
    }
    hide CompoundTag;
    NetworkRoundTrip(NbtTag(c), rest);
  }

  // ---- The imperative renderer ----

  method SetBool(comp: Compound, key: Text, v: Option<bool>)
    requires comp.Valid()
    modifies comp
    ensures comp.Valid() && comp.Entries() == SetSlot(old(comp.Entries()), Slot(key, BoolTag(v)))
  {
    if v.None? {
      return;
    }
    comp.Set(key, TByte(if v.value then 1 else 0));
  }

  lemma SetAllSnoc(slots: seq<Slot>, k: nat)
    requires k < |slots|
    ensures SetAll(slots[..k + 1]) == SetSlot(SetAll(slots[..k]), slots[k])
  {
    assert slots[..k + 1][..k] == slots[..k];
  }

  method RenderCompound(c: Component) returns (t: Tag)
    ensures t == CompoundTag(c)
    decreases c, 1
  {
    hide ExtraTag, SetAll, SetEntry;
    ghost var s := Slots(c);
    assert SetAll(s[..0]) == [] by { SetAllEmpty(); }
    var comp := new Compound();
    SetAllSnoc(s, 0);
    comp.Set(TEXT, TString(c.text));
    SetAllSnoc(s, 1);
    if c.color != [] {
      comp.Set(COLOR, TString(c.color));
    }
    SetAllSnoc(s, 2);
    SetBool(comp, BOLD, c.bold);
    SetAllSnoc(s, 3);
    SetBool(comp, ITALIC, c.italic);
    SetAllSnoc(s, 4);
    SetBool(comp, UNDERLINED, c.underlined);
    SetAllSnoc(s, 5);
    SetBool(comp, STRIKETHROUGH, c.strikethrough);
    SetAllSnoc(s, 6);
    SetBool(comp, OBFUSCATED, c.obfuscated);
    SetAllSnoc(s, 7);
    assert comp.Entries() == SetAll(s[..7]);
    var extra := RenderExtra(c);
    if extra.Some? {
      comp.Set(EXTRA, extra.value);
    }
    assert s[..8] == s;
    t := TCompound(comp.Entries());
  }

  lemma SetAllEmpty()
    ensures SetAll([]) == []
  {
  }

  method RenderExtra(c: Component) returns (extra: Option<Tag>)
    ensures extra == ExtraTag(c)
    decreases c, 0
  {
    if |c.extra| == 0 {
      return None;
    }
    var elems: seq<Tag> := [];
    for i := 0 to |c.extra|
      invariant elems + ExtraTags(c.extra[i..]) == ExtraTags(c.extra)
    {
      assert c.extra[i..][1..] == c.extra[i + 1..];
      var e := RenderCompound(c.extra[i]);
      elems := elems + [e];
    }
    assert c.extra[|c.extra|..] == [] && elems == ExtraTags(c.extra);
    extra := Some(TList(TAG_COMPOUND, elems));
  }

  method Render(c: Component) returns (t: Tag)
    ensures t == NbtTag(c)
  {
    if IsSimple(c) {
      return TString(c.text);
    }
    t := RenderCompound(c);
  }
}

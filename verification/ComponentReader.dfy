/** A client's reading of a text component's tag, field by field under its name: it
  * gives back the very component that was rendered. */
module ComponentReader {
  import opened Bytes
  import opened Mutf8
  import opened Nbt
  import opened NbtProofs
  import opened TextComponent

  function Ascii(s: string): (t: Text)
    requires forall i :: 0 <= i < |s| ==> s[i] < 128 as char
    ensures |t| == |s| && forall i :: 0 <= i < |s| ==> t[i] == s[i] as int
  {
    seq(|s|, i requires 0 <= i < |s| => s[i] as int)
  }

  function LookUp(es: seq<Entry>, name: Text): Option<Tag> {
    if es == [] then None else if es[0].name == name then Some(es[0].tag) else LookUp(es[1..], name)
  }

  /** The string under a name, if there is one. */
  function TextUnder(es: seq<Entry>, name: Text): Text {
    var t := LookUp(es, name);
    if t.Some? && t.value.TString? then t.value.text else []
  }

  /** The flag under a name, if there is one. */
  function FlagUnder(es: seq<Entry>, name: Text): Option<bool> {
    var t := LookUp(es, name);
    if t.Some? && t.value.TByte? then Some(t.value.byte != 0) else None
  }

  /** The children in the list under a name. */
  function ChildrenUnder(es: seq<Entry>, name: Text): seq<Component>
    decreases es, 0
  {
    if es == [] then []
    else if es[0].name != name then ChildrenUnder(es[1..], name)
    else if es[0].tag.TList? then ChildrenOf(es[0].tag.elems)
    else []
  }

  function ChildrenOf(ts: seq<Tag>): seq<Component>
    decreases ts, 0
  {
    if ts == [] then [] else [ComponentOf(ts[0])] + ChildrenOf(ts[1..])
  }

  function ComponentOf(t: Tag): Component
    decreases t, 1
  {
    if t.TString? then Component(t.text, [], None, None, None, None, None, [])
    else if t.TCompound? then
      Component(TextUnder(t.entries, Ascii("text")), TextUnder(t.entries, Ascii("color")),
                FlagUnder(t.entries, Ascii("bold")), FlagUnder(t.entries, Ascii("italic")),
                FlagUnder(t.entries, Ascii("underlined")), FlagUnder(t.entries, Ascii("strikethrough")),
                FlagUnder(t.entries, Ascii("obfuscated")), ChildrenUnder(t.entries, Ascii("extra")))
    else Component([], [], None, None, None, None, None, [])
  }

  // ---- Looking up what was set ----

  lemma {:induction false} SetLookUp(es: seq<Entry>, name: Text, v: Tag, m: Text)
    ensures LookUp(SetEntry(es, name, v), m) == if m == name then Some(v) else LookUp(es, m)
  {
    if es != [] {
      var r := SetEntry(es, name, v);
      if es[0].name == name {
        assert r[1..] == es[1..];
      } else {
        SetLookUp(es[1..], name, v, m);
        assert r[1..] == SetEntry(es[1..], name, v);
      }
    }
  }

  lemma {:induction false} SlotLookUp(slots: seq<Slot>, m: Text)
    requires forall i :: 0 <= i < |slots| ==> slots[i].name != m
    ensures LookUp(SetAll(slots), m) == None
  {
    hide SetEntry;
    if slots != [] {
      var init, s := slots[..|slots| - 1], slots[|slots| - 1];
      SlotLookUp(init, m);
      if s.tag.Some? {
        SetLookUp(SetAll(init), s.name, s.tag.value, m);
      }
    }
  }

  /** Each slot's tag is found under its name, or nothing if it was not sent. */
  lemma {:induction false} SlotFound(slots: seq<Slot>, i: nat)
    requires DistinctSlots(slots) && i < |slots|
    ensures LookUp(SetAll(slots), slots[i].name) == slots[i].tag
  {
    hide SetEntry;
    var init, s := slots[..|slots| - 1], slots[|slots| - 1];
    var m := slots[i].name;
    if i == |init| {
      SlotLookUp(init, m);
    } else {
      SlotFound(init, i);
      assert s.name != m;
    }
    if s.tag.Some? {
      SetLookUp(SetAll(init), s.name, s.tag.value, m);
    }
  }

  lemma Names()
    ensures TEXT == Ascii("text") && COLOR == Ascii("color") && BOLD == Ascii("bold") && ITALIC == Ascii("italic")
    ensures UNDERLINED == Ascii("underlined") && STRIKETHROUGH == Ascii("strikethrough")
    ensures OBFUSCATED == Ascii("obfuscated") && EXTRA == Ascii("extra")
  {
  }

  lemma {:induction false} ChildrenFound(es: seq<Entry>, name: Text)
    ensures ChildrenUnder(es, name)
            == var t := LookUp(es, name); if t.Some? && t.value.TList? then ChildrenOf(t.value.elems) else []
  {
    hide ChildrenOf;
    if es != [] {
      ChildrenFound(es[1..], name);
    }
  }

  /** What is found under the eight names of a rendered compound. */
  lemma FieldsFound(c: Component)
    ensures var es := SetAll(Slots(c));
            && LookUp(es, Ascii("text")) == Some(TString(c.text))
            && LookUp(es, Ascii("color")) == (if c.color == [] then None else Some(TString(c.color)))
            && LookUp(es, Ascii("bold")) == BoolTag(c.bold) && LookUp(es, Ascii("italic")) == BoolTag(c.italic)
            && LookUp(es, Ascii("underlined")) == BoolTag(c.underlined)
            && LookUp(es, Ascii("strikethrough")) == BoolTag(c.strikethrough)
            && LookUp(es, Ascii("obfuscated")) == BoolTag(c.obfuscated)
            && LookUp(es, Ascii("extra"))
               == if c.extra == [] then None else Some(TList(TAG_COMPOUND, ExtraTags(c.extra)))
  {
    hide SetAll, LookUp, BoolTag, ExtraTags, FitsString, DistinctSlots, Ascii;
    var slots := Slots(c);
    NamesFit(c);
    Names();
    SlotFound(slots, 0);
    SlotFound(slots, 1);
    SlotFound(slots, 2);
    SlotFound(slots, 3);
    SlotFound(slots, 4);
    SlotFound(slots, 5);
    SlotFound(slots, 6);
    SlotFound(slots, 7);
  }

  lemma {:induction false} CompoundReadBack(c: Component)
    ensures ComponentOf(CompoundTag(c)) == c
    decreases c, 1
  {
    hide SetAll, Slots, LookUp, Ascii, ChildrenUnder, ChildrenOf, ExtraTags;
    FieldsFound(c);
    ChildrenFound(SetAll(Slots(c)), Ascii("extra"));
    ChildrenReadBack(c.extra);
  }

  lemma {:induction false} ChildrenReadBack(cs: seq<Component>)
    ensures ChildrenOf(ExtraTags(cs)) == cs
    decreases cs, 0
  {
    hide CompoundTag, ComponentOf;
    if cs != [] {
      CompoundReadBack(cs[0]);
      ChildrenReadBack(cs[1..]);
      assert ExtraTags(cs)[1..] == ExtraTags(cs[1..]);
    }
  }

  /** Every component, children included, is read back from its tag, which is a bare
    * string exactly when there is nothing but text. */
  lemma ReadBack(c: Component)
    ensures ComponentOf(NbtTag(c)) == c
    ensures NbtTag(c).TString? <==> c == Component(c.text, [], None, None, None, None, None, [])
  {
    hide CompoundTag;
    if !IsSimple(c) {
      CompoundReadBack(c);
    }
  }

  /** So no two components are rendered alike. */
  lemma RenderingInjective(c: Component, d: Component)
    requires NbtTag(c) == NbtTag(d)
    ensures c == d
  {
    ReadBack(c);
    ReadBack(d);
  }
}

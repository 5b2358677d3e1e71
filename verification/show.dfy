/** The typed facade of the Show request: every field is a setter that writes
    or removes one key of the parameter store and a getter that reads it back,
    validating and converting what it finds. */
module Show {
  import opened Wrappers
  import opened RpcTypes
  import opened ParamStore

  const KeyGraphic := "graphic"
  const KeyCustomPresets := "customPresets"
  const KeyMainField1 := "mainField1"
  const KeyMainField2 := "mainField2"
  const KeyMainField3 := "mainField3"
  const KeyMainField4 := "mainField4"
  const KeyStatusBar := "statusBar"
  const KeyMediaClock := "mediaClock"
  const KeyAlignment := "alignment"
  const KeyMediaTrack := "mediaTrack"
  const KeySecondaryGraphic := "secondaryGraphic"
  const KeySoftButtons := "softButtons"

  /** The fields of a Show request. */
  datatype Field =
    | MainField1 | MainField2 | MainField3 | MainField4
    | StatusBar | MediaClock | MediaTrack
    | Alignment
    | Graphic | SecondaryGraphic
    | SoftButtons
    | CustomPresets
  {
    /** Fields whose value is a plain string. */
    predicate IsText()
    {
      this in {MainField1, MainField2, MainField3, MainField4, StatusBar, MediaClock, MediaTrack}
    }

    /** Fields whose value is an Image. */
    predicate IsImage()
    {
      this == Graphic || this == SecondaryGraphic
    }
  }

  type TextField = f: Field | f.IsText() witness MainField1
  type ImageField = f: Field | f.IsImage() witness Graphic

  /** The field a parameter key belongs to, if any. */
  function FieldForKey(key: string): Option<Field>
  {
    if key == KeyMainField1 then Some(MainField1)
    else if key == KeyMainField2 then Some(MainField2)
    else if key == KeyMainField3 then Some(MainField3)
    else if key == KeyMainField4 then Some(MainField4)
    else if key == KeyStatusBar then Some(StatusBar)
    else if key == KeyMediaClock then Some(MediaClock)
    else if key == KeyMediaTrack then Some(MediaTrack)
    else if key == KeyAlignment then Some(Alignment)
    else if key == KeyGraphic then Some(Graphic)
    else if key == KeySecondaryGraphic then Some(SecondaryGraphic)
    else if key == KeySoftButtons then Some(SoftButtons)
    else if key == KeyCustomPresets then Some(CustomPresets)
    else None
  }

  /** The parameter key a field is stored under; the key names this field and
      no other. */
  function Key(f: Field): (key: string)
    ensures FieldForKey(key) == Some(f)
  {
    match f
    case MainField1 => KeyMainField1
    case MainField2 => KeyMainField2
    case MainField3 => KeyMainField3
    case MainField4 => KeyMainField4
    case StatusBar => KeyStatusBar
    case MediaClock => KeyMediaClock
    case MediaTrack => KeyMediaTrack
    case Alignment => KeyAlignment
    case Graphic => KeyGraphic
    case SecondaryGraphic => KeySecondaryGraphic
    case SoftButtons => KeySoftButtons
    case CustomPresets => KeyCustomPresets
  }

  /** Distinct fields never share a key, so writing one cannot disturb another. */
  lemma KeyInjective(f: Field, g: Field)
    ensures Key(f) == Key(g) <==> f == g
  {
  }

  // ---------------------------------------------------------------------
  // Put-or-remove setters (strings, alignment, images)
  // ---------------------------------------------------------------------

  /** The shared setter shape: store a non-null value, remove the key on null. */
  function PutOrRemove(p: Params, key: string, v: Option<Value>): (r: Params)
    requires v != Some(Null)
    ensures Lookup(r, key) == v
    ensures OnlyKeyChanged(p, r, key)
    ensures WellFormed(p) ==> WellFormed(r)
  {
    match v
    case Some(x) => Put(p, key, x)
    case None => Remove(p, key)
  }

  /** setMainField1 ... setMainField4, setStatusBar, setMediaClock, setMediaTrack. */
  function SetText(p: Params, f: TextField, text: Option<string>): (r: Params)
    ensures text.Some? ==> Lookup(r, Key(f)) == Some(Str(text.value))
    ensures text.None? ==> Key(f) !in r
    ensures OnlyKeyChanged(p, r, Key(f))
  {
    PutOrRemove(p, Key(f), if text.Some? then Some(Str(text.value)) else None)
  }

  /** setAlignment. */
  function SetAlignment(p: Params, alignment: Option<TextAlignment>): (r: Params)
    ensures alignment.Some? ==> Lookup(r, KeyAlignment) == Some(Align(alignment.value))
    ensures alignment.None? ==> KeyAlignment !in r
    ensures OnlyKeyChanged(p, r, KeyAlignment)
  {
    PutOrRemove(p, KeyAlignment, if alignment.Some? then Some(Align(alignment.value)) else None)
  }

  /** setGraphic and setSecondaryGraphic. */
  function SetImage(p: Params, f: ImageField, image: Option<Image>): (r: Params)
    ensures image.Some? ==> Lookup(r, Key(f)) == Some(Img(image.value))
    ensures image.None? ==> Key(f) !in r
    ensures OnlyKeyChanged(p, r, Key(f))
  {
    PutOrRemove(p, Key(f), if image.Some? then Some(Img(image.value)) else None)
  }

  // ---------------------------------------------------------------------
  // List setters
  // ---------------------------------------------------------------------

  /** The condition under which a list setter stores its argument: the list is
      non-null, non-empty and holds no null element. */
  predicate Storable<T>(list: Option<seq<Option<T>>>)
  {
    list.Some? && |list.value| > 0 && NoneMissing(list.value)
  }

  /** The stored form of a list of soft buttons. */
  function ButtonList(buttons: seq<SoftButton>): (v: Value)
    ensures v.List? && |v.items| == |buttons|
    ensures forall i :: 0 <= i < |buttons| ==> v.items[i] == Btn(buttons[i])
  {
    List(seq(|buttons|, i requires 0 <= i < |buttons| => Btn(buttons[i])))
  }

  /** The stored form of a list of strings. */
  function StringList(strings: seq<string>): (v: Value)
    ensures v.List? && |v.items| == |strings|
    ensures forall i :: 0 <= i < |strings| ==> v.items[i] == Str(strings[i])
  {
    List(seq(|strings|, i requires 0 <= i < |strings| => Str(strings[i])))
  }

  /** setSoftButtons as written: the list is iterated before it is tested for
      null, so a null list throws instead of removing the key. */
  function SetSoftButtonsAsWritten(p: Params, buttons: Option<seq<Option<SoftButton>>>): (r: Result<Params, Fault>)
    ensures r.Failure? <==> buttons.None?
    ensures r.Failure? ==> r.error == NullPointer
    ensures r.Success? && Storable(buttons) ==> Lookup(r.value, KeySoftButtons) == Some(ButtonList(Unwrap(buttons.value)))
    ensures r.Success? && !Storable(buttons) ==> KeySoftButtons !in r.value
    ensures r.Success? ==> OnlyKeyChanged(p, r.value, KeySoftButtons)
  {
    if buttons.None? then Failure(NullPointer)
    else if |buttons.value| > 0 && NoneMissing(buttons.value) then
      Success(Put(p, KeySoftButtons, ButtonList(Unwrap(buttons.value))))
    else
      Success(Remove(p, KeySoftButtons))
  }

  /** setSoftButtons as its null test intends: a null list removes the key
      like an empty list or a list holding a null element does. */
  function SetSoftButtons(p: Params, buttons: Option<seq<Option<SoftButton>>>): (r: Params)
    ensures Storable(buttons) ==> Lookup(r, KeySoftButtons) == Some(ButtonList(Unwrap(buttons.value)))
    ensures !Storable(buttons) <==> KeySoftButtons !in r
    ensures OnlyKeyChanged(p, r, KeySoftButtons)
    ensures WellFormed(p) ==> WellFormed(r)
  {
    if Storable(buttons) then Put(p, KeySoftButtons, ButtonList(Unwrap(buttons.value)))
    else Remove(p, KeySoftButtons)
  }

  /** setCustomPresets as written: a null list throws, as in setSoftButtons. */
  function SetCustomPresetsAsWritten(p: Params, presets: Option<seq<Option<string>>>): (r: Result<Params, Fault>)
    ensures r.Failure? <==> presets.None?
    ensures r.Failure? ==> r.error == NullPointer
    ensures r.Success? && Storable(presets) ==> Lookup(r.value, KeyCustomPresets) == Some(StringList(Unwrap(presets.value)))
    ensures r.Success? && !Storable(presets) ==> KeyCustomPresets !in r.value
    ensures r.Success? ==> OnlyKeyChanged(p, r.value, KeyCustomPresets)
  {
    if presets.None? then Failure(NullPointer)
    else if |presets.value| > 0 && NoneMissing(presets.value) then
      Success(Put(p, KeyCustomPresets, StringList(Unwrap(presets.value))))
    else
      Success(Remove(p, KeyCustomPresets))
  }

  /** setCustomPresets with a null list removing the key. */
  function SetCustomPresets(p: Params, presets: Option<seq<Option<string>>>): (r: Params)
    ensures Storable(presets) ==> Lookup(r, KeyCustomPresets) == Some(StringList(Unwrap(presets.value)))
    ensures !Storable(presets) <==> KeyCustomPresets !in r
    ensures OnlyKeyChanged(p, r, KeyCustomPresets)
    ensures WellFormed(p) ==> WellFormed(r)
  {
    if Storable(presets) then Put(p, KeyCustomPresets, StringList(Unwrap(presets.value)))
    else Remove(p, KeyCustomPresets)
  }

  // ---------------------------------------------------------------------
  // Getters
  // ---------------------------------------------------------------------

  /** getMainField1 ... getMediaTrack: an unchecked (String) cast of whatever is
      stored, which throws when the value is of another class. */
  function GetText(p: Params, f: TextField): (r: Result<Option<string>, Fault>)
    ensures r == Success(None) <==> Key(f) !in p || p[Key(f)] == Null
    ensures (r.Success? && r.value.Some?) <==> Key(f) in p && p[Key(f)].Str?
    ensures r.Success? && r.value.Some? ==> p[Key(f)] == Str(r.value.value)
    ensures r.Failure? ==> r.error == ClassCast
  {
    match Lookup(p, Key(f))
    case None => Success(None)
    case Some(Null) => Success(None)
    case Some(Str(s)) => Success(Some(s))
    case Some(_) => Failure(ClassCast)
  }

  /** getAlignment: a stored TextAlignment is returned as is, a stored string
      is parsed by name with `parse` (TextAlignment.valueForString), and
      anything else reads as null. */
  function GetAlignment(p: Params, parse: string -> Option<TextAlignment>): (r: Option<TextAlignment>)
    ensures KeyAlignment in p && p[KeyAlignment].Align? ==> r == Some(p[KeyAlignment].alignment)
    ensures KeyAlignment in p && p[KeyAlignment].Str? ==> r == parse(p[KeyAlignment].s)
    ensures KeyAlignment !in p || !(p[KeyAlignment].Align? || p[KeyAlignment].Str?) ==> r.None?
  {
    match Lookup(p, KeyAlignment)
    case Some(Align(a)) => Some(a)
    case Some(Str(s)) => parse(s)
    case _ => None
  }

  /** getGraphic and getSecondaryGraphic: a stored Image is returned as is, a
      nested table is converted with `toImage` (new Image(Hashtable)), whose
      failure is caught and reads as null, and anything else reads as null. */
  function GetImage(p: Params, f: ImageField, toImage: map<string, Value> -> Option<Image>): (r: Option<Image>)
    ensures Key(f) in p && p[Key(f)].Img? ==> r == Some(p[Key(f)].image)
    ensures Key(f) in p && p[Key(f)].Table? ==> r == toImage(p[Key(f)].entries)
    ensures Key(f) !in p || !(p[Key(f)].Img? || p[Key(f)].Table?) ==> r.None?
  {
    match Lookup(p, Key(f))
    case Some(Img(image)) => Some(image)
    case Some(Table(entries)) => toImage(entries)
    case _ => None
  }

  /** Every element is an already-typed SoftButton. */
  predicate AllButtons(items: seq<Value>)
  {
    forall i :: 0 <= i < |items| ==> items[i].Btn?
  }

  /** Every element is a nested table. */
  predicate AllTables(items: seq<Value>)
  {
    forall i :: 0 <= i < |items| ==> items[i].Table?
  }

  /** Every element is a string. */
  predicate AllStrings(items: seq<Value>)
  {
    forall i :: 0 <= i < |items| ==> items[i].Str?
  }

  /** The stored list of soft buttons: element i is items[i] itself when every
      element is already typed, and the conversion of items[i] when every
      element is a nested table. */
  function SoftButtonsIn(items: seq<Value>, toButton: map<string, Value> -> SoftButton): (r: seq<SoftButton>)
    requires AllButtons(items) || AllTables(items)
    ensures |r| == |items|
    ensures forall i :: 0 <= i < |items| && items[i].Btn? ==> r[i] == items[i].button
    ensures forall i :: 0 <= i < |items| && items[i].Table? ==> r[i] == toButton(items[i].entries)
  {
    seq(|items|, i requires 0 <= i < |items| =>
      if items[i].Btn? then items[i].button else toButton(items[i].entries))
  }

  /** The result of getSoftButtons, stated declaratively: a non-empty list
      that is uniformly typed SoftButtons or uniformly nested tables yields its
      buttons in order; anything else, a mixed list in particular, is null. */
  function SoftButtonsOf(p: Params, toButton: map<string, Value> -> SoftButton): (r: Option<seq<SoftButton>>)
    ensures r.Some? <==>
      && KeySoftButtons in p && p[KeySoftButtons].List?
      && |p[KeySoftButtons].items| > 0
      && (AllButtons(p[KeySoftButtons].items) || AllTables(p[KeySoftButtons].items))
    ensures r.Some? ==> r.value == SoftButtonsIn(p[KeySoftButtons].items, toButton)
  {
    match Lookup(p, KeySoftButtons)
    case Some(List(items)) =>
      if |items| > 0 && (AllButtons(items) || AllTables(items)) then Some(SoftButtonsIn(items, toButton))
      else None
    case _ => None
  }

  /** The strings of an all-string list, in order. */
  function StringsIn(items: seq<Value>): (r: seq<string>)
    requires AllStrings(items)
    ensures |r| == |items|
    ensures forall i :: 0 <= i < |items| ==> items[i] == Str(r[i])
  {
    seq(|items|, i requires 0 <= i < |items| => items[i].s)
  }

  /** The result of getCustomPresets, stated declaratively: the stored list
      exactly when it is a non-empty list of strings, otherwise null. */
  function CustomPresetsOf(p: Params): (r: Option<seq<string>>)
    ensures r.Some? <==>
      && KeyCustomPresets in p && p[KeyCustomPresets].List?
      && |p[KeyCustomPresets].items| > 0 && AllStrings(p[KeyCustomPresets].items)
    ensures r.Some? ==> StringList(r.value) == p[KeyCustomPresets]
  {
    match Lookup(p, KeyCustomPresets)
    case Some(List(items)) =>
      if |items| > 0 && AllStrings(items) then Some(StringsIn(items)) else None
    case _ => None
  }

  /** getSoftButtons makes one pass over the list with a flag for each element
      kind seen, giving up as soon as an element is of a third kind or of the
      kind opposite to an earlier one, and converting nested tables as it goes. */
  method GetSoftButtons(p: Params, toButton: map<string, Value> -> SoftButton) returns (r: Option<seq<SoftButton>>)
    ensures r == SoftButtonsOf(p, toButton)
  {
    var stored := Lookup(p, KeySoftButtons);
    if !(stored.Some? && stored.value.List?) {
      return None;
    }
    var list := stored.value.items;
    if |list| == 0 {
      return None;
    }
    var converted: seq<SoftButton> := [];
    var sawButton, sawTable := false, false;
    var i := 0;
    while i < |list|
      invariant 0 <= i <= |list|
      invariant sawButton || sawTable <==> i > 0
      invariant !(sawButton && sawTable)
      invariant sawButton ==> AllButtons(list[..i])
      invariant sawTable ==> AllTables(list[..i])
      invariant |converted| == (if sawTable then i else 0)
      invariant sawTable ==> forall j :: 0 <= j < i ==> converted[j] == toButton(list[j].entries)
    {
      var item := list[i];
      if item.Btn? {
        if sawTable {
          assert list[..i][0] == list[0];
          assert !AllButtons(list) && !AllTables(list);
          return None;
        }
        sawButton := true;
      } else if item.Table? {
        if sawButton {
          assert list[..i][0] == list[0];
          assert !AllButtons(list) && !AllTables(list);
          return None;
        }
        sawTable := true;
        converted := converted + [toButton(item.entries)];
      } else {
        assert !AllButtons(list) && !AllTables(list);
        return None;
      }
      i := i + 1;
    }
    assert list[..i] == list;
    var expected := SoftButtonsIn(list, toButton);
    if sawButton {
      var buttons := seq(|list|, j requires 0 <= j < |list| && list[j].Btn? => list[j].button);
      assert forall j :: 0 <= j < |list| ==> buttons[j] == expected[j];
      assert buttons == expected;
      assert AllButtons(list);
      r := Some(buttons);
    } else {
      assert forall j :: 0 <= j < |list| ==> converted[j] == expected[j];
      assert converted == expected;
      assert AllTables(list);
      r := Some(converted);
    }
  }

  /** getCustomPresets makes one pass that gives up at the first element that
      is not a string. */
  method GetCustomPresets(p: Params) returns (r: Option<seq<string>>)
    ensures r == CustomPresetsOf(p)
  {
    var stored := Lookup(p, KeyCustomPresets);
    if !(stored.Some? && stored.value.List?) {
      return None;
    }
    var list := stored.value.items;
    if |list| == 0 {
      return None;
    }
    var i := 0;
    while i < |list|
      invariant 0 <= i <= |list|
      invariant AllStrings(list[..i])
    {
      if !list[i].Str? {
        assert !AllStrings(list);
        return None;
      }
      i := i + 1;
    }
    assert list[..i] == list;
    var strings := seq(|list|, j requires 0 <= j < |list| && list[j].Str? => list[j].s);
    assert forall j :: 0 <= j < |list| ==> strings[j] == StringsIn(list)[j];
    assert strings == StringsIn(list);
    assert AllStrings(list);
    r := Some(strings);
  }
}

/** Properties of the Show facade that relate several accessor calls:
    round trips, the list-field rules, isolation of fields from one another,
    and the null-list finding. */
module ShowProperties {
  import opened Wrappers
  import opened RpcTypes
  import opened ParamStore
  import opened Show

  /** One call of a Show setter, with its argument. */
  datatype Update =
    | TextUpdate(textField: TextField, text: Option<string>)
    | AlignmentUpdate(alignment: Option<TextAlignment>)
    | ImageUpdate(imageField: ImageField, image: Option<Image>)
    | SoftButtonsUpdate(buttons: seq<Option<SoftButton>>)       // a non-null list
    | CustomPresetsUpdate(presets: seq<Option<string>>)         // a non-null list

  /** The field a setter call writes. */
  function FieldOf(u: Update): Field
  {
    match u
    case TextUpdate(f, _) => f
    case AlignmentUpdate(_) => Alignment
    case ImageUpdate(f, _) => f
    case SoftButtonsUpdate(_) => SoftButtons
    case CustomPresetsUpdate(_) => CustomPresets
  }

  /** Performs a setter call on the parameter store. A list setter is only
      ever given a non-null list (a null one throws), so every call here
      returns normally, exactly as the list setters are written. Every setter
      touches its own key only and never stores null. */
  function Apply(p: Params, u: Update): (r: Params)
    ensures OnlyKeyChanged(p, r, Key(FieldOf(u)))
    ensures WellFormed(p) ==> WellFormed(r)
    ensures u.SoftButtonsUpdate? ==> SetSoftButtonsAsWritten(p, Some(u.buttons)) == Success(r)
    ensures u.CustomPresetsUpdate? ==> SetCustomPresetsAsWritten(p, Some(u.presets)) == Success(r)
  {
    match u
    case TextUpdate(f, text) => SetText(p, f, text)
    case AlignmentUpdate(a) => SetAlignment(p, a)
    case ImageUpdate(f, image) => SetImage(p, f, image)
    case SoftButtonsUpdate(buttons) => SetSoftButtons(p, Some(buttons))
    case CustomPresetsUpdate(presets) => SetCustomPresets(p, Some(presets))
  }

  /** What a setter call leaves under its key depends on its argument alone,
      not on what the store held before. */
  lemma ApplyOwnKeyIndependent(p: Params, q: Params, u: Update)
    ensures Lookup(Apply(p, u), Key(FieldOf(u))) == Lookup(Apply(q, u), Key(FieldOf(u)))
  {
    match u
    case TextUpdate(f, text) =>
    case AlignmentUpdate(a) =>
    case ImageUpdate(f, image) =>
    case SoftButtonsUpdate(buttons) =>
    case CustomPresetsUpdate(presets) =>
  }

  /** Two maps that agree on every key are equal. */
  lemma LookupExtensional(p: Params, q: Params)
    requires forall k :: Lookup(p, k) == Lookup(q, k)
    ensures p == q
  {
    assert p.Keys == q.Keys by {
      forall k ensures k in p <==> k in q {
        assert Lookup(p, k).Some? <==> Lookup(q, k).Some?;
      }
    }
    forall k | k in p ensures p[k] == q[k] {
      assert Lookup(p, k) == Lookup(q, k);
    }
  }

  /** Setter calls on different fields commute. */
  lemma ApplyCommutes(p: Params, u: Update, v: Update)
    requires FieldOf(u) != FieldOf(v)
    ensures Apply(Apply(p, u), v) == Apply(Apply(p, v), u)
  {
    var ku, kv := Key(FieldOf(u)), Key(FieldOf(v));
    KeyInjective(FieldOf(u), FieldOf(v));
    var uv, vu := Apply(Apply(p, u), v), Apply(Apply(p, v), u);
    forall k ensures Lookup(uv, k) == Lookup(vu, k) {
      if k == ku {
        ApplyOwnKeyIndependent(p, Apply(p, v), u);
      } else if k == kv {
        ApplyOwnKeyIndependent(p, Apply(p, u), v);
      }
    }
    LookupExtensional(uv, vu);
  }

  /** Of two setter calls on the same field, the second wins; in particular
      repeating a setter call changes nothing. */
  lemma ApplyLastWins(p: Params, u: Update, v: Update)
    requires FieldOf(u) == FieldOf(v)
    ensures Apply(Apply(p, u), v) == Apply(p, v)
  {
    var k0 := Key(FieldOf(v));
    var a, b := Apply(Apply(p, u), v), Apply(p, v);
    forall k ensures Lookup(a, k) == Lookup(b, k) {
      if k == k0 {
        ApplyOwnKeyIndependent(Apply(p, u), p, v);
      }
    }
    LookupExtensional(a, b);
  }

  // ---------------------------------------------------------------------
  // Round trips
  // ---------------------------------------------------------------------

  /** A string field reads back exactly what was set, null included. */
  lemma TextRoundTrip(p: Params, f: TextField, text: Option<string>)
    ensures GetText(SetText(p, f, text), f) == Success(text)
  {
  }

  /** The alignment reads back what was set, whatever the name parser does. */
  lemma AlignmentRoundTrip(p: Params, a: Option<TextAlignment>, parse: string -> Option<TextAlignment>)
    ensures GetAlignment(SetAlignment(p, a), parse) == a
  {
  }

  /** An image field reads back what was set, whatever the converter does. */
  lemma ImageRoundTrip(p: Params, f: ImageField, image: Option<Image>, toImage: map<string, Value> -> Option<Image>)
    ensures GetImage(SetImage(p, f, image), f, toImage) == image
  {
  }

  /** After setSoftButtons with a non-null list, which returns normally, the
      getter reads the same buttons in the same order when the list was
      non-empty and null-free, and null otherwise. */
  lemma SoftButtonsRoundTrip(p: Params, buttons: seq<Option<SoftButton>>, toButton: map<string, Value> -> SoftButton)
    ensures SetSoftButtonsAsWritten(p, Some(buttons)).Success?
    ensures |buttons| > 0 && NoneMissing(buttons) ==>
      SoftButtonsOf(SetSoftButtonsAsWritten(p, Some(buttons)).value, toButton) == Some(Unwrap(buttons))
    ensures !(|buttons| > 0 && NoneMissing(buttons)) ==>
      SoftButtonsOf(SetSoftButtonsAsWritten(p, Some(buttons)).value, toButton).None?
  {
    if |buttons| > 0 && NoneMissing(buttons) {
      var bs := Unwrap(buttons);
      var items := ButtonList(bs).items;
      assert AllButtons(items);
      assert SoftButtonsIn(items, toButton) == bs;
    }
  }

  /** After setCustomPresets with a non-null list, which returns normally, the
      getter reads the list unchanged when it was non-empty and null-free, and
      null otherwise. */
  lemma CustomPresetsRoundTrip(p: Params, presets: seq<Option<string>>)
    ensures SetCustomPresetsAsWritten(p, Some(presets)).Success?
    ensures |presets| > 0 && NoneMissing(presets) ==>
      CustomPresetsOf(SetCustomPresetsAsWritten(p, Some(presets)).value) == Some(Unwrap(presets))
    ensures !(|presets| > 0 && NoneMissing(presets)) ==>
      CustomPresetsOf(SetCustomPresetsAsWritten(p, Some(presets)).value).None?
  {
    if |presets| > 0 && NoneMissing(presets) {
      var ps := Unwrap(presets);
      var items := StringList(ps).items;
      assert AllStrings(items);
      assert StringsIn(items) == ps;
    }
  }

  /** One null element drops the whole soft-button field: it is removed, not
      stored with the null filtered out. */
  lemma NullButtonDropsField(p: Params, buttons: seq<Option<SoftButton>>, i: nat)
    requires i < |buttons| && buttons[i].None?
    ensures SetSoftButtonsAsWritten(p, Some(buttons)).Success?
    ensures KeySoftButtons !in SetSoftButtonsAsWritten(p, Some(buttons)).value
  {
  }

  /** One null element drops the whole custom-presets field. */
  lemma NullPresetDropsField(p: Params, presets: seq<Option<string>>, i: nat)
    requires i < |presets| && presets[i].None?
    ensures SetCustomPresetsAsWritten(p, Some(presets)).Success?
    ensures KeyCustomPresets !in SetCustomPresetsAsWritten(p, Some(presets)).value
  {
  }

  // ---------------------------------------------------------------------
  // Soft-button list validation
  // ---------------------------------------------------------------------

  /** A list mixing a typed SoftButton and a nested table reads as null,
      whichever of the two comes first. */
  lemma MixedButtonListRejected(p: Params, toButton: map<string, Value> -> SoftButton, i: nat, j: nat)
    requires KeySoftButtons in p && p[KeySoftButtons].List?
    requires i < |p[KeySoftButtons].items| && j < |p[KeySoftButtons].items|
    requires p[KeySoftButtons].items[i].Btn? && p[KeySoftButtons].items[j].Table?
    ensures SoftButtonsOf(p, toButton).None?
  {
  }

  /** An element that is neither a SoftButton nor a nested table (a string,
      a null, another list ...) makes the whole list read as null. */
  lemma ForeignButtonElementRejected(p: Params, toButton: map<string, Value> -> SoftButton, i: nat)
    requires KeySoftButtons in p && p[KeySoftButtons].List?
    requires i < |p[KeySoftButtons].items|
    requires !p[KeySoftButtons].items[i].Btn? && !p[KeySoftButtons].items[i].Table?
    ensures SoftButtonsOf(p, toButton).None?
  {
  }

  /** A list of nested tables, as decoded from the wire, reads as their
      conversions in the stored order. */
  lemma TableButtonsConvertedInOrder(p: Params, toButton: map<string, Value> -> SoftButton)
    requires KeySoftButtons in p && p[KeySoftButtons].List?
    requires |p[KeySoftButtons].items| > 0 && AllTables(p[KeySoftButtons].items)
    ensures SoftButtonsOf(p, toButton).Some?
    ensures var items := p[KeySoftButtons].items;
            var r := SoftButtonsOf(p, toButton).value;
            |r| == |items| && forall k :: 0 <= k < |items| ==> r[k] == toButton(items[k].entries)
  {
  }

  // ---------------------------------------------------------------------
  // Isolation of fields
  // ---------------------------------------------------------------------

  /** A setter call on one field leaves every getter of every other field
      reading what it read before. */
  lemma UpdateIsolated(p: Params, u: Update, parse: string -> Option<TextAlignment>,
                       toImage: map<string, Value> -> Option<Image>, toButton: map<string, Value> -> SoftButton)
    ensures forall f: TextField {:trigger GetText(p, f)} :: f != FieldOf(u) ==> GetText(Apply(p, u), f) == GetText(p, f)
    ensures FieldOf(u) != Alignment ==> GetAlignment(Apply(p, u), parse) == GetAlignment(p, parse)
    ensures forall f: ImageField {:trigger GetImage(p, f, toImage)} :: f != FieldOf(u) ==> GetImage(Apply(p, u), f, toImage) == GetImage(p, f, toImage)
    ensures FieldOf(u) != SoftButtons ==> SoftButtonsOf(Apply(p, u), toButton) == SoftButtonsOf(p, toButton)
    ensures FieldOf(u) != CustomPresets ==> CustomPresetsOf(Apply(p, u)) == CustomPresetsOf(p)
  {
    var r := Apply(p, u);
    forall f: Field | f != FieldOf(u) ensures Lookup(r, Key(f)) == Lookup(p, Key(f)) {
      KeyInjective(f, FieldOf(u));
    }
  }

  // ---------------------------------------------------------------------
  // Finding: a null list argument
  // ---------------------------------------------------------------------

  /** As written, setSoftButtons(null) throws instead of removing the key. */
  lemma NullSoftButtonsThrows(p: Params)
    ensures SetSoftButtonsAsWritten(p, None) == Failure(NullPointer)
    ensures KeySoftButtons !in SetSoftButtons(p, None)
  {
  }

  /** As written, setCustomPresets(null) throws instead of removing the key. */
  lemma NullCustomPresetsThrows(p: Params)
    ensures SetCustomPresetsAsWritten(p, None) == Failure(NullPointer)
    ensures KeyCustomPresets !in SetCustomPresets(p, None)
  {
  }

  /** On every non-null list the corrected setters behave exactly as written. */
  lemma CorrectedSettersAgreeOnNonNull(p: Params, buttons: seq<Option<SoftButton>>, presets: seq<Option<string>>)
    ensures SetSoftButtonsAsWritten(p, Some(buttons)) == Success(SetSoftButtons(p, Some(buttons)))
    ensures SetCustomPresetsAsWritten(p, Some(presets)) == Success(SetCustomPresets(p, Some(presets)))
  {
  }
}

/** The intake form's autosaved draft: what `saveDraft` stores and how
    `loadDraft` puts it back into the form's controls.

    The stored draft is a JSON object, here a map from field name to a JSON
    value (a string, a boolean or a list of strings). Storage itself, the
    JSON text and the timers are not part of this model. */
module Draft {
  import opened Text
  import opened FormData

  /** A JSON value of the stored draft. */
  datatype Stored = JStr(s: string) | JBool(b: bool) | JArr(items: seq<string>)

  type Draft = map<string, Stored>

  // ---------------------------------------------------------------------
  // Saving

  /** `Object.fromEntries(pairs)`: one key per name; a name that occurs
      several times keeps only its LAST value. */
  function FromEntries(ps: seq<Pair>): Draft {
    if ps == [] then map[]
    else
      var last := ps[|ps| - 1];
      FromEntries(ps[..|ps| - 1])[last.0 := JStr(last.1)]
  }

  /** One more value under a name that already has some. */
  function Append(v: Stored, value: string): Stored {
    match v
    case JStr(s) => JArr([s, value])
    case JArr(items) => JArr(items + [value])
    case JBool(_) => JArr([value])
  }

  /** The values of a name as stored: one value as a string, several as a list. */
  function Pack(values: seq<string>): Stored
    requires values != []
  {
    if |values| == 1 then JStr(values[0]) else JArr(values)
  }

  /** Pairs to a draft keeping every value: a name seen once is a string, a
      name seen several times a list of its values in order. */
  function Grouped(ps: seq<Pair>): Draft {
    if ps == [] then map[]
    else
      var last := ps[|ps| - 1];
      var d := Grouped(ps[..|ps| - 1]);
      d[last.0 := if last.0 in d then Append(d[last.0], last.1) else JStr(last.1)]
  }

  /** `saveDraft` as written: `Object.fromEntries(new FormData(form))`. */
  function SaveDraftAsWritten(cs: seq<Control>): Draft {
    FromEntries(Entries(cs))
  }

  /** `saveDraft` as intended: every checked box of a group is kept. */
  function SaveDraft(cs: seq<Control>): Draft {
    Grouped(Entries(cs))
  }

  lemma GetAllSnoc(ps: seq<Pair>, name: string)
    requires ps != []
    ensures GetAll(ps, name) == GetAll(ps[..|ps| - 1], name) + GetAll([ps[|ps| - 1]], name)
  {
    GetAllConcat(ps[..|ps| - 1], [ps[|ps| - 1]], name);
    assert ps[..|ps| - 1] + [ps[|ps| - 1]] == ps;
  }

  /** `fromEntries` keeps a name exactly when it occurs, with its last value. */
  lemma {:induction false} FromEntriesKeepsLast(ps: seq<Pair>, name: string)
    ensures name in FromEntries(ps) <==> GetAll(ps, name) != []
    ensures name in FromEntries(ps) ==>
      var all := GetAll(ps, name); FromEntries(ps)[name] == JStr(all[|all| - 1])
  {
    if ps != [] {
      FromEntriesKeepsLast(ps[..|ps| - 1], name);
      GetAllSnoc(ps, name);
    }
  }

  /** The grouped draft keeps, under each name, all of its values in order. */
  lemma {:induction false} GroupedKeepsAll(ps: seq<Pair>, name: string)
    ensures name in Grouped(ps) <==> GetAll(ps, name) != []
    ensures name in Grouped(ps) ==> Grouped(ps)[name] == Pack(GetAll(ps, name))
  {
    if ps != [] {
      GroupedKeepsAll(ps[..|ps| - 1], name);
      GetAllSnoc(ps, name);
    }
  }

  // ---------------------------------------------------------------------
  // Loading

  /** JavaScript truthiness of a stored value (`!!v`). */
  function Truthy(v: Stored): bool {
    match v
    case JStr(s) => s != ""
    case JBool(b) => b
    case JArr(_) => true
  }

  /** The text a control shows after `el.value = v`. */
  function AsText(v: Stored): string {
    match v
    case JStr(s) => s
    case JBool(b) => if b then "true" else "false"
    case JArr(items) => Join(items, ",")
  }

  /** The rule for one input of a group: checked iff its value is in the
      stored list, or equals the stored string. */
  function RestoreChoice(c: Choice, v: Stored): Choice {
    match v
    case JArr(items) => c.(checked := c.value in items)
    case JStr(s) => c.(checked := c.value == s)
    case JBool(_) => c.(checked := false)
  }

  /** One control after its stored value is put back: each input of a group
      is checked exactly when its value is in the stored list or equals the
      stored string; a lone checkbox is checked exactly when the stored value
      is truthy; a field shows the stored value as text. The kind of the
      control, its name and its inputs' values stay as they were. */
  function RestoreControl(c: Control, v: Stored): (r: Control)
    ensures r.name == c.name
    ensures match c
      case Group(_, inputs) =>
        r.Group? && |r.inputs| == |inputs| &&
        forall k :: 0 <= k < |inputs| ==>
          r.inputs[k].value == inputs[k].value &&
          (r.inputs[k].checked <==> (v.JArr? && inputs[k].value in v.items) || v == JStr(inputs[k].value))
      case Checkbox(name, value, _) => r == Checkbox(name, value, Truthy(v))
      case Field(name, _) => r == Field(name, AsText(v))
  {
    match c
    case Group(name, inputs) =>
      Group(name, seq(|inputs|, k requires 0 <= k < |inputs| => RestoreChoice(inputs[k], v)))
    case Checkbox(name, value, _) => Checkbox(name, value, Truthy(v))
    case Field(name, _) => Field(name, AsText(v))
  }

  /** The controls after the whole draft is put back: each control whose
      name is a key of the draft is restored from its value, every other
      control is left as it was. */
  function Restored(cs: seq<Control>, d: Draft): (r: seq<Control>)
    ensures |r| == |cs|
    ensures forall i :: 0 <= i < |cs| ==> r[i].name == cs[i].name
    ensures forall i :: 0 <= i < |cs| && cs[i].name !in d ==> r[i] == cs[i]
    ensures forall i :: 0 <= i < |cs| && cs[i].name in d ==> r[i] == RestoreControl(cs[i], d[cs[i].name])
  {
    seq(|cs|, i requires 0 <= i < |cs| =>
      if cs[i].name in d then RestoreControl(cs[i], d[cs[i].name]) else cs[i])
  }

  /** `form.elements[name]`: the index of the control with that name, or the
      number of controls when there is none. */
  method Lookup(controls: array<Control>, name: string) returns (i: nat)
    ensures i <= controls.Length
    ensures i < controls.Length ==> controls[i].name == name
    ensures i == controls.Length ==> forall j :: 0 <= j < controls.Length ==> controls[j].name != name
  {
    i := 0;
    while i < controls.Length && controls[i].name != name
      invariant i <= controls.Length
      invariant forall j :: 0 <= j < i ==> controls[j].name != name
    {
      i := i + 1;
    }
  }

  /** `loadDraft`: with no usable draft (none stored, or not parseable) the
      form is left alone; otherwise each stored entry is written into the
      control of the same name, in place, and entries without a control are
      skipped. The entries are visited in any order: with distinct names no
      two entries touch the same control. */
  method LoadDraft(controls: array<Control>, stored: Option<Draft>)
    requires DistinctNames(controls[..])
    modifies controls
    ensures stored.None? ==> controls[..] == old(controls[..])
    ensures stored.Some? ==> controls[..] == Restored(old(controls[..]), stored.value)
  {
    if stored.None? {
      return;
    }
    var data := stored.value;
    ghost var original := controls[..];
    var remaining := data.Keys;
    while remaining != {}
      invariant remaining <= data.Keys
      invariant forall i :: 0 <= i < controls.Length ==> controls[i].name == original[i].name
      invariant forall i :: 0 <= i < controls.Length ==>
        controls[i] == if original[i].name in data && original[i].name !in remaining
                       then RestoreControl(original[i], data[original[i].name])
                       else original[i]
      decreases remaining
    {
      var k :| k in remaining;
      var i := Lookup(controls, k);
      if i < controls.Length {
        controls[i] := RestoreControl(controls[i], data[k]);
      }
      remaining := remaining - {k};
    }
    assert controls[..] == Restored(original, data);
  }

  // ---------------------------------------------------------------------
  // Round trip

  /** The form as first loaded: empty fields, nothing checked. */
  function Blank(c: Control): (r: Control)
    ensures r.name == c.name
    ensures Submitted(r) == (if c.Field? then [""] else [])
  {
    match c
    case Field(name, _) => Field(name, "")
    case Checkbox(name, value, _) => Checkbox(name, value, false)
    case Group(name, inputs) =>
      var cleared := seq(|inputs|, k requires 0 <= k < |inputs| => inputs[k].(checked := false));
      NoneChecked(cleared);
      Group(name, cleared)
  }

  function BlankForm(cs: seq<Control>): (r: seq<Control>)
    ensures |r| == |cs|
    ensures forall i :: 0 <= i < |cs| ==> r[i] == Blank(cs[i])
  {
    seq(|cs|, i requires 0 <= i < |cs| => Blank(cs[i]))
  }

  /** The page's form as the draft code expects it: distinct names, distinct
      values within a group, and a lone checkbox with a non-empty value (the
      browser's default is "on"). */
  predicate WellFormed(cs: seq<Control>) {
    && DistinctNames(cs)
    && (forall i :: 0 <= i < |cs| && cs[i].Checkbox? ==> cs[i].value != "")
    && (forall i :: 0 <= i < |cs| && cs[i].Group? ==>
          forall a, b :: 0 <= a < b < |cs[i].inputs| ==> cs[i].inputs[a].value != cs[i].inputs[b].value)
  }

  /** One control, blanked and then restored from everything it submitted,
      is back as it was. */
  lemma RestoreOwnValues(c: Control)
    requires c.Checkbox? ==> c.value != ""
    requires c.Group? ==> forall a, b :: 0 <= a < b < |c.inputs| ==> c.inputs[a].value != c.inputs[b].value
    ensures Submitted(c) == [] ==> Blank(c) == c
    ensures Submitted(c) != [] ==> RestoreControl(Blank(c), Pack(Submitted(c))) == c
  {
    match c
    case Field(_, _) =>
    case Checkbox(_, _, _) =>
    case Group(name, inputs) =>
      var vals := CheckedValues(inputs);
      NoneChecked(inputs);
      if vals != [] {
        var r := RestoreControl(Blank(c), Pack(vals));
        forall k | 0 <= k < |inputs| ensures r.inputs[k] == inputs[k] {
          CheckedValuesHas(inputs, k);
        }
      } else {
        assert Blank(c).inputs == inputs;
      }
  }

  /** Round trip: saving the form and loading the draft into the blank form
      gives back every field's value and every box's state, the membership
      of every checkbox group included. */
  lemma SaveLoadRoundTrip(cs: seq<Control>)
    requires WellFormed(cs)
    ensures Restored(BlankForm(cs), SaveDraft(cs)) == cs
  {
    var blank := BlankForm(cs);
    var d := SaveDraft(cs);
    forall i | 0 <= i < |cs| ensures Restored(blank, d)[i] == cs[i] {
      var name := cs[i].name;
      GetAllEntries(cs, name);
      RestoreOwnValues(cs[i]);
      GroupedKeepsAll(Entries(cs), name);
      assert blank[i] == Blank(cs[i]);
    }
  }

  /** As written, a checkbox group with two boxes checked comes back with
      only the second one checked. */
  lemma AsWrittenLosesCheckedBoxes()
    ensures var cs := [Group("concerns", [Choice("Anxiety", true), Choice("Stress", true)])];
      Restored(BlankForm(cs), SaveDraftAsWritten(cs)) != cs
  {
    var cs := [Group("concerns", [Choice("Anxiety", true), Choice("Stress", true)])];
    var inputs := cs[0].inputs;
    assert CheckedValues(inputs) == ["Anxiety", "Stress"] by {
      assert inputs[1..] == [Choice("Stress", true)];
      assert inputs[1..][1..] == [];
    }
    GetAllEntries(cs, "concerns");
    FromEntriesKeepsLast(Entries(cs), "concerns");
    var r := Restored(BlankForm(cs), SaveDraftAsWritten(cs));
    assert !r[0].inputs[0].checked;
  }

  /** As written, a restored group keeps exactly one checked box, the last
      one checked when saved. */
  lemma AsWrittenKeepsLastChecked(cs: seq<Control>, i: nat, k: nat)
    requires WellFormed(cs) && i < |cs| && cs[i].Group? && k < |cs[i].inputs|
    requires CheckedValues(cs[i].inputs) != []
    ensures var vals := CheckedValues(cs[i].inputs);
      Restored(BlankForm(cs), SaveDraftAsWritten(cs))[i].inputs[k].checked <==>
        cs[i].inputs[k].value == vals[|vals| - 1]
  {
    var name := cs[i].name;
    var vals := CheckedValues(cs[i].inputs);
    var d := SaveDraftAsWritten(cs);
    GetAllEntries(cs, name);
    assert GetAll(Entries(cs), name) == vals;
    FromEntriesKeepsLast(Entries(cs), name);
    assert d[name] == JStr(vals[|vals| - 1]);
    var blank := BlankForm(cs);
    assert blank[i] == Blank(cs[i]) && blank[i].name == name;
    var r := Restored(blank, d)[i];
    assert r == RestoreControl(blank[i], JStr(vals[|vals| - 1]));
    assert r.inputs[k] == RestoreChoice(blank[i].inputs[k], JStr(vals[|vals| - 1]));
  }
}

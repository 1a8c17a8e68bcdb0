/** The intake form's controls as the page holds them, and what
    `new FormData(form)` reads from them: a list of (name, value) pairs in
    page order, queried with `get` (the first value under a name) and
    `getAll` (every value under a name). */
module FormData {
  import opened Text

  /** One input of a group of same-named checkboxes or radio buttons. */
  datatype Choice = Choice(value: string, checked: bool)

  /** A named form control. A `Group` is what `form.elements[name]` returns
      as a `RadioNodeList` (several inputs sharing the name); a `Checkbox`
      is a lone checkbox; a `Field` is any control with a text value (input,
      textarea, select). */
  datatype Control =
    | Field(name: string, value: string)
    | Checkbox(name: string, value: string, checked: bool)
    | Group(name: string, inputs: seq<Choice>)

  type Pair = (string, string)

  /** No two controls share a name, so `form.elements[name]` finds at most one. */
  predicate DistinctNames(cs: seq<Control>) {
    forall i, j :: 0 <= i < j < |cs| ==> cs[i].name != cs[j].name
  }

  /** The values of the checked inputs, in page order. */
  function CheckedValues(inputs: seq<Choice>): (r: seq<string>)
    ensures |r| <= |inputs|
  {
    if inputs == [] then []
    else (if inputs[0].checked then [inputs[0].value] else []) + CheckedValues(inputs[1..])
  }

  /** The values a control contributes to `FormData`: a field always, a
      checkbox or a group input only when checked. */
  function Submitted(c: Control): seq<string> {
    match c
    case Field(_, value) => [value]
    case Checkbox(_, value, checked) => if checked then [value] else []
    case Group(_, inputs) => CheckedValues(inputs)
  }

  /** Pairs every value with a name. */
  function Tag(name: string, values: seq<string>): (r: seq<Pair>)
    ensures |r| == |values|
    ensures forall k :: 0 <= k < |r| ==> r[k] == (name, values[k])
  {
    if values == [] then [] else [(name, values[0])] + Tag(name, values[1..])
  }

  /** `new FormData(form)`: the pairs of all controls, in page order. */
  function Entries(cs: seq<Control>): seq<Pair> {
    if cs == [] then [] else Tag(cs[0].name, Submitted(cs[0])) + Entries(cs[1..])
  }

  /** `formData.getAll(name)`: every value under `name`, in order. */
  function GetAll(ps: seq<Pair>, name: string): seq<string> {
    if ps == [] then []
    else (if ps[0].0 == name then [ps[0].1] else []) + GetAll(ps[1..], name)
  }

  /** `formData.get(name)`: the first value under `name`, None for `null`. */
  function Get(ps: seq<Pair>, name: string): (r: Option<string>)
    ensures r.None? <==> GetAll(ps, name) == []
    ensures r.Some? ==> r.value == GetAll(ps, name)[0]
  {
    if ps == [] then None
    else if ps[0].0 == name then Some(ps[0].1)
    else Get(ps[1..], name)
  }

  lemma {:induction false} GetAllConcat(a: seq<Pair>, b: seq<Pair>, name: string)
    ensures GetAll(a + b, name) == GetAll(a, name) + GetAll(b, name)
  {
    if a != [] {
      assert (a + b)[1..] == a[1..] + b;
      GetAllConcat(a[1..], b, name);
    } else {
      assert a + b == b;
    }
  }

  lemma {:induction false} GetAllTag(tag: string, values: seq<string>, name: string)
    ensures GetAll(Tag(tag, values), name) == if tag == name then values else []
  {
    if values != [] {
      GetAllTag(tag, values[1..], name);
      assert Tag(tag, values)[1..] == Tag(tag, values[1..]);
      assert values == [values[0]] + values[1..];
    }
  }

  /** With distinct names, `getAll(name)` gives exactly the values of the one
      control of that name, and nothing when no control has it. */
  lemma {:induction false} GetAllEntries(cs: seq<Control>, name: string)
    requires DistinctNames(cs)
    ensures forall i :: 0 <= i < |cs| && cs[i].name == name ==> GetAll(Entries(cs), name) == Submitted(cs[i])
    ensures (forall i :: 0 <= i < |cs| ==> cs[i].name != name) ==> GetAll(Entries(cs), name) == []
  {
    if cs != [] {
      var rest := cs[1..];
      assert DistinctNames(rest) by {
        forall i, j | 0 <= i < j < |rest| ensures rest[i].name != rest[j].name {
          assert rest[i] == cs[i + 1] && rest[j] == cs[j + 1];
        }
      }
      GetAllEntries(rest, name);
      GetAllConcat(Tag(cs[0].name, Submitted(cs[0])), Entries(rest), name);
      GetAllTag(cs[0].name, Submitted(cs[0]), name);
      if cs[0].name == name {
        assert forall i :: 0 <= i < |rest| ==> rest[i].name != name by {
          forall i | 0 <= i < |rest| ensures rest[i].name != name {
            assert rest[i] == cs[i + 1];
          }
        }
      }
      forall i | 0 < i < |cs| && cs[i].name == name
        ensures GetAll(Entries(cs), name) == Submitted(cs[i])
      {
        assert rest[i - 1] == cs[i];
      }
    }
  }

  /** A checked input's value is among the checked values, and when the
      group's values are distinct an unchecked input's value is not. */
  lemma {:induction false} CheckedValuesHas(inputs: seq<Choice>, k: nat)
    requires k < |inputs|
    requires forall i, j :: 0 <= i < j < |inputs| ==> inputs[i].value != inputs[j].value
    ensures inputs[k].value in CheckedValues(inputs) <==> inputs[k].checked
  {
    var rest := inputs[1..];
    if k == 0 {
      forall j | 0 <= j < |rest| ensures rest[j].value != inputs[0].value {
        assert rest[j] == inputs[j + 1];
      }
      ValueNotChecked(rest, inputs[0].value);
    } else {
      CheckedValuesHas(rest, k - 1);
      assert rest[k - 1] == inputs[k];
    }
  }

  /** A value no input carries is not among the checked values. */
  lemma {:induction false} ValueNotChecked(inputs: seq<Choice>, v: string)
    requires forall j :: 0 <= j < |inputs| ==> inputs[j].value != v
    ensures v !in CheckedValues(inputs)
  {
    if inputs != [] {
      ValueNotChecked(inputs[1..], v);
    }
  }

  /** No checked value means no input is checked. */
  lemma {:induction false} NoneChecked(inputs: seq<Choice>)
    ensures CheckedValues(inputs) == [] <==> forall k :: 0 <= k < |inputs| ==> !inputs[k].checked
  {
    if inputs != [] {
      NoneChecked(inputs[1..]);
      assert forall k :: 1 <= k < |inputs| ==> inputs[k] == inputs[1..][k - 1];
    }
  }
}

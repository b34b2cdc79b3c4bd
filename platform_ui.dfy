/** The platform's service registration page (`ui.js`): the form is filled
    with the `LLM1` defaults, and Register collects the nine fields into the
    service object sent to the center. The page's inputs are a map from
    element id to value; an id that is not in the map has no element. */
module PlatformUi {
  import opened Results
  import opened Text
  import opened JsValues

  const OK: string := "OK"

  /** The form fields, in the order the page lists them (also the key
      order of the defaults). */
  const FIELDS: seq<string> := ["ServiceID", "ServiceName", "Input", "ServiceDescription", "ServiceRuningCode",
                                "ComputingRequirement", "StorageRequirement", "ComputingTime", "SoftwareDependency"]

  /** `defaultLLM1()`. */
  function DefaultLLM1(): map<string, string>
  {
    map[
      "ServiceID" := "LLM1",
      "ServiceName" := "General LLM Chat Service",
      "Input" := "text prompt",
      "ServiceDescription" := "A general-purpose LLM chat service. " + "Input is user text, output is assistant text.",
      "ServiceRuningCode" := "POST /invoke {ServiceID, Input} " + "-> {OutputType:'text', Output:'...'}",
      "ComputingRequirement" := "CPU >= 2 cores (demo)",
      "StorageRequirement" := "Low (demo)",
      "ComputingTime" := "~1s (demo)",
      "SoftwareDependency" := "none (demo)"
    ]
  }

  /** The inputs after the values of `d` are written into those that
      exist. */
  function FilledWith(inputs: map<string, string>, d: map<string, string>): map<string, string>
  {
    map id | id in inputs :: if id in d then d[id] else inputs[id]
  }

  /** The inputs after the defaults are filled in. */
  function Filled(inputs: map<string, string>): map<string, string>
  {
    FilledWith(inputs, DefaultLLM1())
  }

  /** One field of the object: its input's value trimmed, `""` without an
      input. */
  function Field(inputs: map<string, string>, f: string): string
  {
    Trim(if f in inputs then inputs[f] else "", JsSpace)
  }

  /** The object built from `fields`, one field after the other. */
  function Collected(fields: seq<string>, inputs: map<string, string>): map<string, string>
  {
    if fields == [] then map[]
    else
      var f := fields[|fields| - 1];
      Collected(fields[..|fields| - 1], inputs)[f := Field(inputs, f)]
  }

  /** The service object Register builds from the listed fields. */
  function FormObject(inputs: map<string, string>): map<string, string>
  {
    Collected(FIELDS, inputs)
  }

  /** The defaults are exactly the listed fields. */
  lemma DefaultKeys()
    ensures DefaultLLM1().Keys == set f | f in FIELDS
  {
  }

  /** Filling writes only into inputs that exist, gives each of them its
      default, and leaves every other input as it was. */
  lemma FilledSpec(inputs: map<string, string>)
    ensures Filled(inputs).Keys == inputs.Keys
    ensures forall f :: f in inputs && f in FIELDS ==> Filled(inputs)[f] == DefaultLLM1()[f]
    ensures forall id :: id in inputs && id !in FIELDS ==> Filled(inputs)[id] == inputs[id]
  {
    DefaultKeys();
  }

  /** The object has exactly the nine listed fields, each trimmed, and
      `""` for a field whose input is missing or blank. */
  lemma FormObjectSpec(inputs: map<string, string>)
    ensures FormObject(inputs).Keys == set f | f in FIELDS
    ensures forall f :: f in FIELDS ==> Trim(FormObject(inputs)[f], JsSpace) == FormObject(inputs)[f]
    ensures forall f :: f in FIELDS && f !in inputs ==> FormObject(inputs)[f] == ""
    ensures forall f :: f in FIELDS && f in inputs && Blank(inputs[f], JsSpace) ==> FormObject(inputs)[f] == ""
  {
    CollectedKeys(FIELDS, inputs);
    forall f | f in FIELDS
      ensures Trim(FormObject(inputs)[f], JsSpace) == FormObject(inputs)[f]
      ensures f !in inputs ==> FormObject(inputs)[f] == ""
      ensures f in inputs && Blank(inputs[f], JsSpace) ==> FormObject(inputs)[f] == ""
    {
      CollectedAt(FIELDS, inputs, f);
      TrimIdempotent(if f in inputs then inputs[f] else "", JsSpace);
      TrimOfTrimmed("", JsSpace);
      if f in inputs {
        TrimEmptyIffBlank(inputs[f], JsSpace);
      }
    }
  }

  /** `v` neither starts nor ends with white space, so trimming keeps it. */
  predicate Tidy(v: string) {
    v == [] || (!JsSpace(v[0]) && !JsSpace(v[|v| - 1]))
  }

  /** Filling from `d` and then collecting `d`'s keys gives back `d` when
      every key has an input and no value of `d` has surrounding blanks. */
  lemma FillThenCollect(fields: seq<string>, d: map<string, string>, inputs: map<string, string>)
    requires d.Keys == set f | f in fields
    requires forall f :: f in fields ==> f in inputs
    requires forall f :: f in d ==> Tidy(d[f])
    ensures Collected(fields, FilledWith(inputs, d)) == d
  {
    var filled := FilledWith(inputs, d);
    var c := Collected(fields, filled);
    forall f | f in d
      ensures f in c && c[f] == d[f]
    {
      assert f in fields && filled[f] == d[f];
      CollectedAt(fields, filled, f);
      TrimOfTrimmed(d[f], JsSpace);
    }
    CollectedKeys(fields, filled);
  }

  /** Every collected field holds its own input's trimmed value. */
  lemma {:induction false} CollectedAt(fields: seq<string>, inputs: map<string, string>, f: string)
    requires f in fields
    ensures f in Collected(fields, inputs) && Collected(fields, inputs)[f] == Field(inputs, f)
  {
    var last := fields[|fields| - 1];
    if f != last {
      assert fields == fields[..|fields| - 1] + [last];
      CollectedAt(fields[..|fields| - 1], inputs, f);
    }
  }

  /** The object has exactly the fields collected. */
  lemma {:induction false} CollectedKeys(fields: seq<string>, inputs: map<string, string>)
    ensures Collected(fields, inputs).Keys == set f | f in fields
  {
    if fields != [] {
      var init, last := fields[..|fields| - 1], fields[|fields| - 1];
      assert fields == init + [last];
      CollectedKeys(init, inputs);
      assert (set f | f in fields) == (set f | f in init) + {last};
    }
  }

  /** No default value has surrounding blanks. (The two long values are
      written as two literals each in `DefaultLLM1`, so that this proof sees
      their first and last characters.) */
  lemma DefaultsTidy()
    ensures forall f :: f in DefaultLLM1() ==> Tidy(DefaultLLM1()[f])
  {
    var d := DefaultLLM1();
    forall f | f in d
      ensures Tidy(d[f])
    {
      var v := d[f];
      if f == "ServiceID" {
        assert v[0] == 'L' && v[|v| - 1] == '1';
      } else if f == "ServiceName" {
        assert v[0] == 'G' && v[|v| - 1] == 'e';
      } else if f == "Input" {
        assert v[0] == 't' && v[|v| - 1] == 't';
      } else if f == "ServiceDescription" {
        assert v[0] == 'A' && v[|v| - 1] == '.';
      } else if f == "ServiceRuningCode" {
        assert v[0] == 'P' && v[|v| - 1] == '}';
      } else {
        assert v[|v| - 1] == ')';
      }
    }
  }

  /** On a page with all nine inputs, registering right after the defaults
      are filled in sends exactly the defaults. */
  lemma DefaultsRoundTrip(inputs: map<string, string>)
    requires forall f :: f in FIELDS ==> f in inputs
    ensures FormObject(Filled(inputs)) == DefaultLLM1()
  {
    DefaultKeys();
    DefaultsTidy();
    FillThenCollect(FIELDS, DefaultLLM1(), inputs);
  }

  /** The page: whether it has the Register button, its inputs, the `err`
      text, and the service objects sent to the center. */
  class Page {
    const hasButton: bool
    var inputs: map<string, string>
    var err: string
    var sent: seq<map<string, string>>

    constructor (hasButton: bool, inputs: map<string, string>)
      ensures this.hasButton == hasButton && this.inputs == inputs && err == "" && sent == []
    {
      this.hasButton := hasButton;
      this.inputs := inputs;
      err := "";
      sent := [];
    }

    /** `initRegisterPage`: on a page with the Register button, the
        defaults go into the inputs that exist; elsewhere nothing changes. */
    method Init()
      modifies this
      ensures inputs == if hasButton then Filled(old(inputs)) else old(inputs)
      ensures err == old(err) && sent == old(sent)
    {
      if !hasButton {
        return;
      }
      DefaultKeys();
      FillFrom(FIELDS, DefaultLLM1());
    }

    /** Writes `d[k]` into the input `k`, for each key `k` of `d` that has
        an input. */
    method FillFrom(keys: seq<string>, d: map<string, string>)
      requires d.Keys == set k | k in keys
      modifies this
      ensures inputs == FilledWith(old(inputs), d)
      ensures err == old(err) && sent == old(sent)
    {
      ghost var start := inputs;
      for i := 0 to |keys|
        invariant inputs.Keys == start.Keys
        invariant err == old(err) && sent == old(sent)
        invariant forall id :: id in inputs ==>
                    inputs[id] == if id in keys[..i] then d[id] else start[id]
      {
        var k := keys[i];
        assert keys[..i + 1] == keys[..i] + [k];
        if k in inputs {
          inputs := inputs[k := d[k]];
        }
      }
      assert keys[..|keys|] == keys;
    }

    /** The `forEach` of the Register handler. */
    method CollectForm() returns (svc: map<string, string>)
      ensures svc == FormObject(inputs)
    {
      svc := CollectFields(FIELDS);
    }

    /** Reads, trims and records every field of `fields`. */
    method CollectFields(fields: seq<string>) returns (svc: map<string, string>)
      ensures svc == Collected(fields, inputs)
    {
      svc := map[];
      for i := 0 to |fields|
        invariant svc == Collected(fields[..i], inputs)
      {
        var f := fields[i];
        var value := if f in inputs then inputs[f] else "";
        assert fields[..i + 1][..i] == fields[..i];
        svc := svc[f := Trim(value, JsSpace)];
      }
      assert fields[..|fields|] == fields;
    }

    /** The Register handler; `reply` is how `apiCreateService` settled
        (`None` for success). */
    method Register(reply: Option<JsError>)
      requires hasButton
      modifies this
      ensures sent == old(sent) + [FormObject(old(inputs))]
      ensures inputs == old(inputs)
      ensures err == if reply.None? then OK else ErrorText(reply.value)
    {
      err := "";
      var svc := CollectForm();
      sent := sent + [svc];
      err := if reply.None? then OK else ErrorText(reply.value);
    }
  }
}

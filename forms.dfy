/**
 * Submitted form data and query arguments (Werkzeug's MultiDict, as used through
 * `flask.request.form` and `flask.request.args`), and the two template helpers of
 * app.py that echo form fields back into HTML.
 *
 * A MultiDict is modelled as the submitted (name, value) pairs in the order the
 * browser sent them: `get` and `[]` see the first value of a name, `getlist` all of
 * them, and `name in form` holds when at least one pair has that name.
 */
module Forms {
  import opened Wrappers

  type Form = seq<(string, string)>

  /** The source's `Markup` strings: HTML-safe text, concatenated as plain strings. */
  type Markup = string

  /** `name in form`. */
  predicate HasField(form: Form, name: string)
  {
    exists i :: 0 <= i < |form| && form[i].0 == name
  }

  /** `form.get(name)`: the first value submitted under `name`, if any. */
  function FormGet(form: Form, name: string): (r: Option<string>)
    ensures r.None? <==> !HasField(form, name)
    ensures r.Some? ==>
      exists i :: 0 <= i < |form| && form[i] == (name, r.value) &&
        forall j :: 0 <= j < i ==> form[j].0 != name
  {
    if |form| == 0 then None
    else if form[0].0 == name then Some(form[0].1)
    else
      var r := FormGet(form[1..], name);
      assert HasField(form[1..], name) ==> HasField(form, name);
      assert HasField(form, name) ==> HasField(form[1..], name) by {
        if HasField(form, name) {
          var i :| 0 <= i < |form| && form[i].0 == name;
          assert form[1..][i - 1].0 == name;
        }
      }
      if r.Some? then
        var i :| 0 <= i < |form[1..]| && form[1..][i] == (name, r.value) &&
          forall j :: 0 <= j < i ==> form[1..][j].0 != name;
        assert form[i + 1] == (name, r.value);
        r
      else r
  }

  /** `form.getlist(name)`: every value submitted under `name`, in order. */
  function FormGetList(form: Form, name: string): (r: seq<string>)
    ensures |r| <= |form|
    ensures forall v :: v in r <==> (name, v) in form
  {
    if |form| == 0 then []
    else
      var rest := FormGetList(form[1..], name);
      assert forall v :: (name, v) in form <==> form[0] == (name, v) || (name, v) in form[1..];
      if form[0].0 == name then [form[0].1] + rest else rest
  }

  /** `getlist` on a single pair: its value when the name matches, nothing otherwise. */
  lemma FormGetListSingle(n: string, v: string, name: string)
    ensures FormGetList([(n, v)], name) == if n == name then [v] else []
  {
  }

  /**
   * `getlist` keeps order and multiplicity: the values of two runs of pairs are the
   * values of the first run followed by those of the second.
   */
  lemma {:induction false} FormGetListAppend(a: Form, b: Form, name: string)
    ensures FormGetList(a + b, name) == FormGetList(a, name) + FormGetList(b, name)
  {
    if a != [] {
      assert (a + b)[1..] == a[1..] + b;
      FormGetListAppend(a[1..], b, name);
    } else {
      assert a + b == b;
    }
  }

  /** `get` returns the head of `getlist`, and nothing exactly when `getlist` is empty. */
  lemma {:induction false} FormGetIsFirstOfList(form: Form, name: string)
    ensures FormGet(form, name) ==
      if FormGetList(form, name) == [] then None else Some(FormGetList(form, name)[0])
  {
    if |form| > 0 && form[0].0 != name {
      FormGetIsFirstOfList(form[1..], name);
    }
  }

  const ValueOpen: Markup := " value=\""
  const ValueClose: Markup := "\" "
  const IdOpen: Markup := " id=\""
  const NameOpen: Markup := "\" name=\""
  const AttributesClose: Markup := "\" "

  /**
   * `form_value(name)`: when the page is re-rendered with the `repeat_form` flag set
   * and the field was submitted, the attribute ` value="..."` carrying the escaped
   * first submitted value; otherwise nothing. `escape` stands for `Markup.escape`.
   */
  function FormValue(name: string, repeatForm: bool, form: Form, escape: string -> Markup): (r: Markup)
    ensures r == "" <==> !(repeatForm && HasField(form, name))
    ensures r != "" ==>
      FormGet(form, name).Some? &&
      |r| == |ValueOpen| + |escape(FormGet(form, name).value)| + |ValueClose| &&
      r[..|ValueOpen|] == ValueOpen &&
      r[|ValueOpen|..|r| - |ValueClose|] == escape(FormGet(form, name).value) &&
      r[|r| - |ValueClose|..] == ValueClose
  {
    if repeatForm && HasField(form, name) then
      var v := escape(FormGet(form, name).value);
      var r := ValueOpen + v + ValueClose;
      assert r[..|ValueOpen|] == ValueOpen;
      assert r[|ValueOpen|..|r| - |ValueClose|] == v;
      assert r[|r| - |ValueClose|..] == ValueClose;
      r
    else ""
  }

  /**
   * `form_attributes(name)`: ` id="<name>" name="<name>" ` with the escaped name,
   * followed by whatever `form_value(name)` gives.
   */
  function FormAttributes(name: string, repeatForm: bool, form: Form, escape: string -> Markup): (r: Markup)
    ensures var head := |IdOpen| + |escape(name)| + |NameOpen| + |escape(name)| + |AttributesClose|;
      head <= |r| &&
      r[..|IdOpen|] == IdOpen &&
      r[|IdOpen|..|IdOpen| + |escape(name)|] == escape(name) &&
      r[|IdOpen| + |escape(name)|..|IdOpen| + |escape(name)| + |NameOpen|] == NameOpen &&
      r[|IdOpen| + |escape(name)| + |NameOpen|..head - |AttributesClose|] == escape(name) &&
      r[head - |AttributesClose|..head] == AttributesClose &&
      r[head..] == FormValue(name, repeatForm, form, escape)
  {
    var e := escape(name);
    var r := IdOpen + e + NameOpen + e + AttributesClose + FormValue(name, repeatForm, form, escape);
    var head := |IdOpen| + |e| + |NameOpen| + |e| + |AttributesClose|;
    assert r[..|IdOpen|] == IdOpen;
    assert r[|IdOpen|..|IdOpen| + |e|] == e;
    assert r[|IdOpen| + |e|..|IdOpen| + |e| + |NameOpen|] == NameOpen;
    assert r[|IdOpen| + |e| + |NameOpen|..head - |AttributesClose|] == e;
    assert r[head - |AttributesClose|..head] == AttributesClose;
    assert r[head..] == FormValue(name, repeatForm, form, escape);
    r
  }
}

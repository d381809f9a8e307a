/** The JavaScript values a route handler reads out of a parsed JSON request
    body, and the coercions the handlers apply to them: truthiness, property
    access, `typeof`, `Object.keys(..).length` and string conversion. */
module Js {
  import opened Wrappers

  /** The characters `String(n)` can produce for a number: digits, sign,
      decimal point, exponent marker, "Infinity" and "NaN". */
  predicate IsNumberChar(c: char) {
    c in "0123456789+-.eInfityNa"
  }

  /** The text `String(n)` gives for a number `n`, e.g. "12", "-0.5",
      "1.5e+21", "Infinity"; -0 and 0 both give "0". The type only bounds the
      alphabet: it also admits texts no number prints, such as "e" or "-0". */
  type NumberText = t: string | |t| > 0 && forall i | 0 <= i < |t| :: IsNumberChar(t[i])
    witness "0"

  /** A value produced by `JSON.parse`. A number is carried as the text that
      `String` gives for it: the handlers only test a number's truthiness and
      convert it to a string. */
  datatype Json =
    | JNull
    | JBool(b: bool)
    | JNum(text: NumberText)
    | JStr(s: string)
    | JArr(items: seq<Json>)
    | JObj(fields: map<string, Json>)

  /** `v[key]` for a value that is not null; `None` stands for `undefined`.
      Reading a property of `null` throws, so callers rule that case out first. */
  function Get(v: Json, key: string): Option<Json>
    requires !v.JNull?
  {
    match v
    case JObj(m) => if key in m then Some(m[key]) else None
    case _ => None
  }

  /** `x == null`: true for both `undefined` and `null`. */
  predicate IsNullish(x: Option<Json>) {
    x.None? || x.value.JNull?
  }

  /** JavaScript truthiness; `undefined` is falsy, and so are the numbers
      0, -0 and NaN. */
  predicate Truthy(x: Option<Json>) {
    match x
    case None => false
    case Some(JNull) => false
    case Some(JBool(b)) => b
    case Some(JNum(t)) => t != "0" && t != "NaN"
    case Some(JStr(s)) => s != ""
    case Some(_) => true
  }

  /** `typeof v === 'object'`: true of null, arrays and plain objects. */
  predicate TypeofIsObject(v: Json) {
    v.JNull? || v.JArr? || v.JObj?
  }

  /** `Object.keys(v).length` for an array or a plain object. */
  function KeyCount(v: Json): nat
    requires v.JArr? || v.JObj?
  {
    if v.JArr? then |v.items| else |v.fields|
  }

  /** `String(v)`, the coercion `RegExp.prototype.test` applies to its
      argument; `None` when it throws. A plain object converts through the
      inherited `Object.prototype.toString` unless it has a key "toString" of
      its own: a JSON value there is not callable, the inherited `valueOf`
      returns the object itself, and the conversion throws a TypeError. */
  function ToJsString(v: Json): Option<string>
    decreases v, 0
  {
    match v
    case JNull => Some("null")
    case JBool(b) => Some(if b then "true" else "false")
    case JNum(t) => Some(t)
    case JStr(s) => Some(s)
    case JArr(items) => JoinItems(items)
    case JObj(m) => if "toString" in m then None else Some("[object Object]")
  }

  /** An array element as `join` converts it: null as "", anything else
      through `String`. */
  function ElementText(x: Json): Option<string>
    decreases x, 1
  {
    if x.JNull? then Some("") else ToJsString(x)
  }

  /** `items.join(",")`, as `Array.prototype.toString` calls it: each element
      converted, with "," between them; it throws when an element's
      conversion does. */
  function JoinItems(items: seq<Json>): Option<string>
    decreases items
  {
    if items == [] then Some("")
    else
      var head := ElementText(items[0]);
      var rest := JoinItems(items[1..]);
      if head.None? || rest.None? then None
      else Some(head.value + (if |items| > 1 then "," else "") + rest.value)
  }

  /** The texts joined with "," between consecutive ones. */
  function Joined(texts: seq<string>): string {
    if |texts| == 0 then ""
    else if |texts| == 1 then texts[0]
    else Joined(texts[..|texts| - 1]) + "," + texts[|texts| - 1]
  }

  lemma {:induction false} JoinedCons(t: string, texts: seq<string>)
    requires |texts| > 0
    ensures Joined([t] + texts) == t + "," + Joined(texts)
    decreases |texts|
  {
    var all := [t] + texts;
    var last := texts[|texts| - 1];
    assert all[|all| - 1] == last;
    if |texts| > 1 {
      var init := texts[..|texts| - 1];
      assert all[..|all| - 1] == [t] + init;
      JoinedCons(t, init);
      calc {
        Joined(all);
        Joined([t] + init) + "," + last;
        (t + "," + Joined(init)) + "," + last;
        t + "," + (Joined(init) + "," + last);
        t + "," + Joined(texts);
      }
    } else {
      assert all[..|all| - 1] == [t];
      assert Joined(all) == t + "," + last;
    }
  }

  /** `join` throws exactly when some element's conversion throws, and
      otherwise gives the element texts, null as "", separated by ",". */
  lemma {:induction false} JoinItemsJoinsTexts(items: seq<Json>, texts: seq<string>)
    requires |texts| == |items|
    requires forall i | 0 <= i < |items| :: ElementText(items[i]).Some? ==> ElementText(items[i]).value == texts[i]
    ensures JoinItems(items).None? <==> exists i | 0 <= i < |items| :: ElementText(items[i]).None?
    ensures JoinItems(items).Some? ==> JoinItems(items).value == Joined(texts)
    decreases |items|
  {
    if items != [] {
      JoinItemsJoinsTexts(items[1..], texts[1..]);
      if JoinItems(items).None? {
        if ElementText(items[0]).Some? {
          var i :| 0 <= i < |items| - 1 && ElementText(items[1..][i]).None?;
          assert ElementText(items[i + 1]).None?;
        }
      } else {
        assert forall i | 0 <= i < |items| :: ElementText(items[i]).Some? by {
          forall i | 0 <= i < |items| ensures ElementText(items[i]).Some? {
            if i > 0 { assert items[i] == items[1..][i - 1]; }
          }
        }
        if |items| > 1 {
          JoinedCons(texts[0], texts[1..]);
          assert [texts[0]] + texts[1..] == texts;
        }
      }
    }
  }
}

/**
 The JSON values that `JSON.parse` can produce, and property access on them.
 */
module JsonValues {
  import opened Base

  /** A JSON number. The pipeline only tests whether a value is a number and passes it
      on, so a number is kept as the literal it was written as and never computed with. */
  datatype Number = Number(literal: string)

  datatype Json =
    | JNull
    | JBool(b: bool)
    | JNum(n: Number)
    | JStr(s: string)
    | JArr(elems: seq<Json>)
    | JObj(fields: seq<(string, Json)>)  // members in the order the text lists them

  /** The member `key` of an object, as `obj[key]` reads it after `JSON.parse`: when the
      text repeats a key, the last occurrence wins. */
  function Lookup(fields: seq<(string, Json)>, key: string): Option<Json>
  {
    if |fields| == 0 then None
    else if fields[|fields| - 1].0 == key then Some(fields[|fields| - 1].1)
    else Lookup(fields[..|fields| - 1], key)
  }

  /** `key` is absent exactly when no member carries it; otherwise the value found is
      that of the last member carrying it. */
  lemma {:induction false} LookupLastWins(fields: seq<(string, Json)>, key: string)
    ensures Lookup(fields, key).None? <==> forall i :: 0 <= i < |fields| ==> fields[i].0 != key
    ensures Lookup(fields, key).Some? ==>
              exists i :: 0 <= i < |fields| && fields[i] == (key, Lookup(fields, key).value)
                          && forall j :: i < j < |fields| ==> fields[j].0 != key
  {
    if |fields| > 0 && fields[|fields| - 1].0 != key {
      var init := fields[..|fields| - 1];
      LookupLastWins(init, key);
      if Lookup(init, key).Some? {
        var i :| 0 <= i < |init| && init[i] == (key, Lookup(init, key).value)
                 && forall j :: i < j < |init| ==> init[j].0 != key;
        assert fields[i] == init[i];
      }
    }
  }

  /** Where the last member carrying `key` sits, there the lookup finds its value. */
  lemma {:induction false} LookupAt(fields: seq<(string, Json)>, i: int, key: string)
    requires 0 <= i < |fields| && fields[i].0 == key
    requires forall j :: i < j < |fields| ==> fields[j].0 != key
    ensures Lookup(fields, key) == Some(fields[i].1)
    decreases |fields|
  {
    if i < |fields| - 1 {
      var init := fields[..|fields| - 1];
      assert init[i] == fields[i];
      LookupAt(init, i, key);
    }
  }

  /** `v?.key` for a key that no prototype defines: an own member of an object,
      otherwise absent (numbers, strings, booleans, arrays and `null` alike). */
  function Get(v: Json, key: string): Option<Json>
  {
    if v.JObj? then Lookup(v.fields, key) else None
  }

  /** `typeof v?.key === "string"`, giving the string. */
  function GetString(v: Json, key: string): Option<string>
  {
    match Get(v, key)
    case Some(JStr(s)) => Some(s)
    case _ => None
  }

  /** `typeof v?.key === "number"`, giving the number. */
  function GetNumber(v: Json, key: string): Option<Number>
  {
    match Get(v, key)
    case Some(JNum(n)) => Some(n)
    case _ => None
  }

  /** The keys an object's members carry. */
  function Keys(fields: seq<(string, Json)>): set<string>
  {
    set i | 0 <= i < |fields| :: fields[i].0
  }

  /** Appending a member under another key leaves every lookup of `key` as it was. */
  lemma LookupIgnoresOtherKey(fields: seq<(string, Json)>, other: string, v: Json, key: string)
    requires other != key
    ensures Lookup(fields + [(other, v)], key) == Lookup(fields, key)
  {
    assert (fields + [(other, v)])[..|fields|] == fields;
  }
}

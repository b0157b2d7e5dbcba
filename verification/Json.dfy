// JSON values as JavaScript sees them after JSON.parse; an object is its own properties in order.
module Json {
  import opened Options

  datatype Json =
    | JNull
    | JBool(truth: bool)
    | JNum(num: real)
    | JStr(str: string)
    | JArr(items: seq<Json>)
    | JObj(fields: seq<(string, Json)>)

  // obj[key], where a missing key gives undefined.
  function Get<T>(fields: seq<(string, T)>, key: string): Option<T> {
    if fields == [] then None
    else if fields[0].0 == key then Some(fields[0].1)
    else Get(fields[1..], key)
  }

  predicate Distinct<T>(fields: seq<(string, T)>) {
    forall i, j :: 0 <= i < j < |fields| ==> fields[i].0 != fields[j].0
  }

  lemma {:induction false} GetAt<T>(fields: seq<(string, T)>, i: nat)
    requires Distinct(fields) && i < |fields|
    ensures Get(fields, fields[i].0) == Some(fields[i].1)
  {
    if i > 0 {
      assert fields[0].0 != fields[i].0;
      assert fields[i] == fields[1..][i - 1];
      GetAt(fields[1..], i - 1);
    }
  }

  lemma {:induction false} GetMissing<T>(fields: seq<(string, T)>, key: string)
    ensures Get(fields, key) == None <==> forall i :: 0 <= i < |fields| ==> fields[i].0 != key
  {
    if fields != [] {
      GetMissing(fields[1..], key);
      assert forall i :: 1 <= i < |fields| ==> fields[i] == fields[1..][i - 1];
    }
  }

  // The look-up finds the first entry with the key.
  lemma {:induction false} GetIff<T(!new)>(fields: seq<(string, T)>, key: string, value: T)
    ensures Get(fields, key) == Some(value) <==>
            exists i :: 0 <= i < |fields| && fields[i] == (key, value) && forall j :: 0 <= j < i ==> fields[j].0 != key
  {
    if fields != [] {
      var rest := fields[1..];
      GetIff(rest, key, value);
      if i :| 0 <= i < |rest| && rest[i] == (key, value) && forall j :: 0 <= j < i ==> rest[j].0 != key {
        assert fields[i + 1] == rest[i] && forall j :: 1 <= j < i + 1 ==> fields[j] == rest[j - 1];
      }
      if i :| 0 <= i < |fields| && fields[i] == (key, value) && forall j :: 0 <= j < i ==> fields[j].0 != key {
        if i > 0 {
          assert rest[i - 1] == fields[i] && forall j :: 0 <= j < i - 1 ==> rest[j] == fields[j + 1];
        }
      }
    }
  }
}

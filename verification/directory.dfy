/** `get_user_id_map` (export_transactions.py line 27): the manager list turned into
    a dictionary from user id to display name. A Python dictionary is an ordered
    association list with distinct keys: writing an existing key replaces its value
    in place, writing a new key appends it. */
module Directory {
  import opened Wrappers

  /** A dictionary from user id to display name, in insertion order. */
  type IdMap = seq<(string, string)>

  function Keys(d: IdMap): (r: seq<string>)
    ensures |r| == |d|
  {
    if |d| == 0 then [] else [d[0].0] + Keys(d[1..])
  }

  /** `d.values()`, in order. */
  function Names(d: IdMap): (r: seq<string>)
    ensures |r| == |d|
  {
    if |d| == 0 then [] else [d[0].1] + Names(d[1..])
  }

  predicate Distinct(s: seq<string>) {
    forall i, j :: 0 <= i < j < |s| ==> s[i] != s[j]
  }

  /** `d.get(k)`. */
  function Get(d: IdMap, k: string): (r: Option<string>)
    ensures r.Some? <==> k in Keys(d)
  {
    if |d| == 0 then None
    else if d[0].0 == k then Some(d[0].1)
    else Get(d[1..], k)
  }

  /** `d[k] = v`. */
  function Put(d: IdMap, k: string, v: string): (r: IdMap)
    ensures Keys(r) == if k in Keys(d) then Keys(d) else Keys(d) + [k]
    ensures Get(r, k) == Some(v)
    ensures forall j :: j != k ==> Get(r, j) == Get(d, j)
  {
    if |d| == 0 then [(k, v)]
    else if d[0].0 == k then [(k, v)] + d[1..]
    else
      var r := [d[0]] + Put(d[1..], k, v);
      assert r[1..] == Put(d[1..], k, v);
      r
  }

  /** The comprehension of line 27 over (name, uid) pairs, uids already strings. */
  function UserIdMap(managers: seq<(string, string)>): (r: IdMap)
    ensures Distinct(Keys(r))
  {
    if |managers| == 0 then []
    else
      var d := UserIdMap(managers[..|managers| - 1]);
      var m := managers[|managers| - 1];
      Put(d, m.1, m.0)
  }

  /** The uids of the manager list, in order. */
  function Uids(managers: seq<(string, string)>): (r: seq<string>)
    ensures |r| == |managers| && forall i :: 0 <= i < |managers| ==> r[i] == managers[i].1
  {
    seq(|managers|, i requires 0 <= i < |managers| => managers[i].1)
  }

  /** The elements of `s` at their first occurrence, in order. */
  function Dedup(s: seq<string>): (r: seq<string>)
    ensures forall x :: x in r <==> x in s
  {
    if |s| == 0 then []
    else
      var init := Dedup(s[..|s| - 1]);
      assert s == s[..|s| - 1] + [s[|s| - 1]];
      if s[|s| - 1] in init then init else init + [s[|s| - 1]]
  }

  /** The name of the last manager listed under `uid`. */
  function LastName(managers: seq<(string, string)>, uid: string): Option<string> {
    if |managers| == 0 then None
    else if managers[|managers| - 1].1 == uid then Some(managers[|managers| - 1].0)
    else LastName(managers[..|managers| - 1], uid)
  }

  /** Each uid maps to the last name listed under it, and to nothing if it is not listed. */
  lemma {:induction false} UserIdMapGet(managers: seq<(string, string)>, uid: string)
    ensures Get(UserIdMap(managers), uid) == LastName(managers, uid)
  {
    if |managers| > 0 {
      UserIdMapGet(managers[..|managers| - 1], uid);
    }
  }

  /** The keys are the listed uids, each once, in the order they first appear. */
  lemma {:induction false} UserIdMapKeys(managers: seq<(string, string)>)
    ensures Keys(UserIdMap(managers)) == Dedup(Uids(managers))
  {
    if |managers| > 0 {
      var init := managers[..|managers| - 1];
      UserIdMapKeys(init);
      assert Uids(managers)[..|managers| - 1] == Uids(init);
    }
  }
}

/**
 * The object graph `DataContractJsonSerializer` hands back for a JSON
 * document, and `ProtonDbClient.GetNestedString`, the priority-ordered,
 * case-insensitive key search over it.
 */
module Json {
  import opened Common
  import opened Text

  /** A deserialised JSON value: objects keep their members in enumeration order. */
  datatype Json =
    | JNull
    | JBool(b: bool)
    | JNumber(n: int)
    | JString(s: string)
    | JArray(items: seq<Json>)
    | JObject(members: seq<Member>)

  datatype Member = Member(name: string, value: Json)

  /** `object.ToString()` of a non-null value, as `GetNestedString` returns it for non-strings. */
  function Display(v: Json): string {
    match v
    case JNull => ""
    case JBool(b) => if b then "True" else "False"
    case JNumber(n) => IntToString(n)
    case JString(s) => s
    case JArray(_) => "System.Object[]"
    case JObject(_) => "System.Collections.Generic.Dictionary`2[System.String,System.Object]"
  }

  /** The value of the first member whose name equals `key` ignoring case. */
  function Lookup(members: seq<Member>, key: string): (r: Option<Json>)
    ensures r.Some? <==> exists i :: 0 <= i < |members| && EqualsIgnoreCase(members[i].name, key)
    ensures r.Some? ==> exists i :: 0 <= i < |members| && EqualsIgnoreCase(members[i].name, key)
                                    && r.value == members[i].value
                                    && forall j :: 0 <= j < i ==> !EqualsIgnoreCase(members[j].name, key)
  {
    if |members| == 0 then None
    else if EqualsIgnoreCase(members[0].name, key) then Some(members[0].value)
    else
      var r := Lookup(members[1..], key);
      assert forall i :: 1 <= i < |members| ==> members[i] == members[1..][i - 1];
      r
  }

  /** The key has a member here whose first occurrence is not null. */
  predicate HitFor(members: seq<Member>, key: string) {
    var r := Lookup(members, key);
    r.Some? && r.value != JNull
  }

  /**
   * The top-level pass of `GetNestedString`: keys in priority order, each against the member
   * names in order; a null value for a key moves on to the next key.
   */
  function TopLevel(members: seq<Member>, keys: seq<string>): (r: Option<string>)
  {
    if |keys| == 0 then None
    else if HitFor(members, keys[0]) then Some(Display(Lookup(members, keys[0]).value))
    else TopLevel(members, keys[1..])
  }

  /** `GetNestedString(obj, keys)`: the top level first, then a depth-first search of nested objects and arrays. */
  function GetNestedString(v: Json, keys: seq<string>): Option<string>
    decreases v, 1
  {
    if |keys| == 0 then None
    else
      match v
      case JObject(members) =>
        var top := TopLevel(members, keys);
        if top.Some? then top else SearchMembers(v, members, keys)
      case JArray(items) => SearchItems(v, items, keys)
      case _ => None
  }

  /** The nested pass over an object's member values, in order. */
  function SearchMembers(parent: Json, members: seq<Member>, keys: seq<string>): Option<string>
    requires forall m :: m in members ==> m.value < parent
    decreases parent, 0, |members|
  {
    if |members| == 0 then None
    else
      var found := GetNestedString(members[0].value, keys);
      if found.Some? then found else SearchMembers(parent, members[1..], keys)
  }

  /** The pass over an array's items, in order. */
  function SearchItems(parent: Json, items: seq<Json>, keys: seq<string>): Option<string>
    requires forall x :: x in items ==> x < parent
    decreases parent, 0, |items|
  {
    if |items| == 0 then None
    else
      assert items[0] in items;
      var found := GetNestedString(items[0], keys);
      if found.Some? then found
      else
        assert forall x :: x in items[1..] ==> x in items;
        SearchItems(parent, items[1..], keys)
  }

  // ---------------------------------------------------------------- properties

  /**
   * Reference reading of the search: `s` is what the top-level pass yields on some object
   * reachable from `v` through object members and array items (`v` itself included).
   */
  ghost predicate Yields(v: Json, keys: seq<string>, s: string)
    decreases v
  {
    match v
    case JObject(members) =>
      TopLevel(members, keys) == Some(s)
      || exists i :: 0 <= i < |members| && Yields(members[i].value, keys, s)
    case JArray(items) => exists i :: 0 <= i < |items| && Yields(items[i], keys, s)
    case _ => false
  }

  /** Key `i` is the first key, in priority order, with a non-null top-level member. */
  ghost predicate WinsAt(members: seq<Member>, keys: seq<string>, i: int) {
    0 <= i < |keys| && HitFor(members, keys[i]) && forall j :: 0 <= j < i ==> !HitFor(members, keys[j])
  }

  lemma {:induction false} WinnerIsTopLevel(members: seq<Member>, keys: seq<string>, i: int)
    requires WinsAt(members, keys, i)
    ensures TopLevel(members, keys) == Some(Display(Lookup(members, keys[i]).value))
    decreases i
  {
    if i > 0 {
      assert !HitFor(members, keys[0]);
      assert keys[1..][i - 1] == keys[i];
      forall j | 0 <= j < i - 1 ensures !HitFor(members, keys[1..][j]) {
        assert keys[1..][j] == keys[j + 1];
      }
      WinnerIsTopLevel(members, keys[1..], i - 1);
    }
  }

  lemma {:induction false} TopLevelHasWinner(members: seq<Member>, keys: seq<string>) returns (i: int)
    requires TopLevel(members, keys).Some?
    ensures WinsAt(members, keys, i)
    decreases |keys|
  {
    if HitFor(members, keys[0]) {
      i := 0;
    } else {
      var k := TopLevelHasWinner(members, keys[1..]);
      i := k + 1;
      assert keys[1..][k] == keys[i];
      forall j | 0 <= j < i ensures !HitFor(members, keys[j]) {
        if j > 0 { assert keys[j] == keys[1..][j - 1]; }
      }
    }
  }

  /** The top-level pass takes the first key, in priority order, that has a non-null member. */
  lemma TopLevelPriority(members: seq<Member>, keys: seq<string>, s: string)
    ensures TopLevel(members, keys) == Some(s) <==>
      exists i :: WinsAt(members, keys, i) && s == Display(Lookup(members, keys[i]).value)
  {
    if TopLevel(members, keys) == Some(s) {
      var i := TopLevelHasWinner(members, keys);
      WinnerIsTopLevel(members, keys, i);
    }
    if exists i :: WinsAt(members, keys, i) && s == Display(Lookup(members, keys[i]).value) {
      var i :| WinsAt(members, keys, i) && s == Display(Lookup(members, keys[i]).value);
      WinnerIsTopLevel(members, keys, i);
    }
  }

  /** A key whose first member is null falls through to the next key. */
  lemma NullFallsThrough(members: seq<Member>, keys: seq<string>)
    requires |keys| > 0 && Lookup(members, keys[0]) == Some(JNull)
    ensures TopLevel(members, keys) == TopLevel(members, keys[1..])
  {
  }

  /** On an object, a top-level answer wins over anything nested. */
  lemma TopLevelFirst(members: seq<Member>, keys: seq<string>)
    requires TopLevel(members, keys).Some?
    ensures GetNestedString(JObject(members), keys) == TopLevel(members, keys)
  {
  }

  /** Every answer of the search comes from the top-level pass of some reachable object. */
  lemma {:induction false} NestedSound(v: Json, keys: seq<string>, s: string)
    requires GetNestedString(v, keys) == Some(s)
    ensures Yields(v, keys, s)
    decreases v, 1
  {
    match v
    case JObject(members) =>
      if TopLevel(members, keys).None? {
        MembersSound(v, members, keys, s);
      }
    case JArray(items) =>
      ItemsSound(v, items, keys, s);
  }

  lemma {:induction false} MembersSound(parent: Json, members: seq<Member>, keys: seq<string>, s: string)
    requires forall m :: m in members ==> m.value < parent
    requires SearchMembers(parent, members, keys) == Some(s)
    ensures exists i :: 0 <= i < |members| && Yields(members[i].value, keys, s)
    decreases parent, 0, |members|
  {
    assert members[0] in members;
    if GetNestedString(members[0].value, keys).Some? {
      NestedSound(members[0].value, keys, s);
    } else {
      assert forall m :: m in members[1..] ==> m in members;
      MembersSound(parent, members[1..], keys, s);
      var i :| 0 <= i < |members[1..]| && Yields(members[1..][i].value, keys, s);
      assert members[1..][i] == members[i + 1];
    }
  }

  lemma {:induction false} ItemsSound(parent: Json, items: seq<Json>, keys: seq<string>, s: string)
    requires forall x :: x in items ==> x < parent
    requires SearchItems(parent, items, keys) == Some(s)
    ensures exists i :: 0 <= i < |items| && Yields(items[i], keys, s)
    decreases parent, 0, |items|
  {
    assert items[0] in items;
    if GetNestedString(items[0], keys).Some? {
      NestedSound(items[0], keys, s);
    } else {
      assert forall x :: x in items[1..] ==> x in items;
      ItemsSound(parent, items[1..], keys, s);
      var i :| 0 <= i < |items[1..]| && Yields(items[1..][i], keys, s);
      assert items[1..][i] == items[i + 1];
    }
  }

  /** Whenever some reachable object has a top-level answer, the search returns something. */
  lemma {:induction false} NestedComplete(v: Json, keys: seq<string>, s: string)
    requires Yields(v, keys, s)
    ensures GetNestedString(v, keys).Some?
    decreases v, 1
  {
    assert |keys| > 0 by {
      if |keys| == 0 { NoKeysNoYield(v, keys, s); }
    }
    match v
    case JObject(members) =>
      if TopLevel(members, keys).None? {
        var i :| 0 <= i < |members| && Yields(members[i].value, keys, s);
        MembersComplete(v, members, keys, i, s);
      }
    case JArray(items) =>
      var i :| 0 <= i < |items| && Yields(items[i], keys, s);
      ItemsComplete(v, items, keys, i, s);
  }

  lemma {:induction false} MembersComplete(parent: Json, members: seq<Member>, keys: seq<string>, i: nat, s: string)
    requires forall m :: m in members ==> m.value < parent
    requires i < |members| && Yields(members[i].value, keys, s)
    ensures SearchMembers(parent, members, keys).Some?
    decreases parent, 0, |members|
  {
    assert members[0] in members;
    if GetNestedString(members[0].value, keys).None? {
      if i == 0 {
        NestedComplete(members[0].value, keys, s);
      } else {
        assert forall m :: m in members[1..] ==> m in members;
        assert members[1..][i - 1] == members[i];
        MembersComplete(parent, members[1..], keys, i - 1, s);
      }
    }
  }

  lemma {:induction false} ItemsComplete(parent: Json, items: seq<Json>, keys: seq<string>, i: nat, s: string)
    requires forall x :: x in items ==> x < parent
    requires i < |items| && Yields(items[i], keys, s)
    ensures SearchItems(parent, items, keys).Some?
    decreases parent, 0, |items|
  {
    assert items[0] in items;
    if GetNestedString(items[0], keys).None? {
      if i == 0 {
        NestedComplete(items[0], keys, s);
      } else {
        assert forall x :: x in items[1..] ==> x in items;
        assert items[1..][i - 1] == items[i];
        ItemsComplete(parent, items[1..], keys, i - 1, s);
      }
    }
  }

  /** With no keys nothing is ever yielded. */
  lemma {:induction false} NoKeysNoYield(v: Json, keys: seq<string>, s: string)
    requires |keys| == 0
    ensures !Yields(v, keys, s)
    decreases v
  {
    match v
    case JObject(members) =>
      forall i | 0 <= i < |members| ensures !Yields(members[i].value, keys, s) {
        NoKeysNoYield(members[i].value, keys, s);
      }
    case JArray(items) =>
      forall i | 0 <= i < |items| ensures !Yields(items[i], keys, s) {
        NoKeysNoYield(items[i], keys, s);
      }
    case _ =>
  }

  /**
   * The search finds something exactly when some reachable object has a top-level answer,
   * and whatever it returns is such an answer; with no keys it returns null.
   */
  lemma GetNestedStringSpec(v: Json, keys: seq<string>)
    ensures |keys| == 0 ==> GetNestedString(v, keys).None?
    ensures GetNestedString(v, keys).Some? <==> exists s :: Yields(v, keys, s)
    ensures GetNestedString(v, keys).Some? ==> Yields(v, keys, GetNestedString(v, keys).value)
  {
    if GetNestedString(v, keys).Some? {
      var s := GetNestedString(v, keys).value;
      NestedSound(v, keys, s);
      assert Yields(v, keys, s);
    }
    if exists s :: Yields(v, keys, s) {
      var s :| Yields(v, keys, s);
      NestedComplete(v, keys, s);
    }
  }

  // ---------------------------------------------------------------- search order

  /** The first of a list of answers, if there is one. */
  function First(xs: seq<string>): Option<string> {
    if |xs| == 0 then None else Some(xs[0])
  }

  function AsList(o: Option<string>): seq<string> {
    if o.Some? then [o.value] else []
  }

  /**
   * Reference reading of the search order: the top-level answers of every object reachable from `v`,
   * in pre-order. An object contributes its own answer first, then its members' subtrees in member
   * order; an array contributes its items' subtrees in item order.
   */
  ghost function Answers(v: Json, keys: seq<string>): seq<string>
    decreases v, 1
  {
    match v
    case JObject(members) => AsList(TopLevel(members, keys)) + MemberAnswers(v, members, keys)
    case JArray(items) => ItemAnswers(v, items, keys)
    case _ => []
  }

  ghost function MemberAnswers(parent: Json, members: seq<Member>, keys: seq<string>): seq<string>
    requires forall m :: m in members ==> m.value < parent
    decreases parent, 0, |members|
  {
    if |members| == 0 then []
    else
      assert members[0] in members;
      assert forall m :: m in members[1..] ==> m in members;
      Answers(members[0].value, keys) + MemberAnswers(parent, members[1..], keys)
  }

  ghost function ItemAnswers(parent: Json, items: seq<Json>, keys: seq<string>): seq<string>
    requires forall x :: x in items ==> x < parent
    decreases parent, 0, |items|
  {
    if |items| == 0 then []
    else
      assert items[0] in items;
      assert forall x :: x in items[1..] ==> x in items;
      Answers(items[0], keys) + ItemAnswers(parent, items[1..], keys)
  }

  lemma FirstOfConcat(a: seq<string>, b: seq<string>)
    ensures First(a + b) == if |a| > 0 then First(a) else First(b)
  {
    if |a| == 0 {
      assert a + b == b;
    }
  }

  /** With no keys no object has a top-level answer, so there are no answers at all. */
  lemma {:induction false} NoKeysNoAnswers(v: Json, keys: seq<string>)
    requires |keys| == 0
    ensures Answers(v, keys) == []
    decreases v, 1
  {
    match v
    case JObject(members) => MembersNoAnswers(v, members, keys);
    case JArray(items) => ItemsNoAnswers(v, items, keys);
    case _ =>
  }

  lemma {:induction false} MembersNoAnswers(parent: Json, members: seq<Member>, keys: seq<string>)
    requires |keys| == 0
    requires forall m :: m in members ==> m.value < parent
    ensures MemberAnswers(parent, members, keys) == []
    decreases parent, 0, |members|
  {
    if |members| > 0 {
      assert members[0] in members;
      assert forall m :: m in members[1..] ==> m in members;
      NoKeysNoAnswers(members[0].value, keys);
      MembersNoAnswers(parent, members[1..], keys);
    }
  }

  lemma {:induction false} ItemsNoAnswers(parent: Json, items: seq<Json>, keys: seq<string>)
    requires |keys| == 0
    requires forall x :: x in items ==> x < parent
    ensures ItemAnswers(parent, items, keys) == []
    decreases parent, 0, |items|
  {
    if |items| > 0 {
      assert items[0] in items;
      assert forall x :: x in items[1..] ==> x in items;
      NoKeysNoAnswers(items[0], keys);
      ItemsNoAnswers(parent, items[1..], keys);
    }
  }

  lemma {:induction false} SearchIsFirst(v: Json, keys: seq<string>)
    requires |keys| > 0
    ensures GetNestedString(v, keys) == First(Answers(v, keys))
    decreases v, 1
  {
    match v
    case JObject(members) =>
      MembersSearchIsFirst(v, members, keys);
      FirstOfConcat(AsList(TopLevel(members, keys)), MemberAnswers(v, members, keys));
    case JArray(items) => ItemsSearchIsFirst(v, items, keys);
    case _ =>
  }

  lemma {:induction false} MembersSearchIsFirst(parent: Json, members: seq<Member>, keys: seq<string>)
    requires |keys| > 0
    requires forall m :: m in members ==> m.value < parent
    ensures SearchMembers(parent, members, keys) == First(MemberAnswers(parent, members, keys))
    decreases parent, 0, |members|
  {
    if |members| > 0 {
      assert members[0] in members;
      assert forall m :: m in members[1..] ==> m in members;
      SearchIsFirst(members[0].value, keys);
      MembersSearchIsFirst(parent, members[1..], keys);
      FirstOfConcat(Answers(members[0].value, keys), MemberAnswers(parent, members[1..], keys));
    }
  }

  lemma {:induction false} ItemsSearchIsFirst(parent: Json, items: seq<Json>, keys: seq<string>)
    requires |keys| > 0
    requires forall x :: x in items ==> x < parent
    ensures SearchItems(parent, items, keys) == First(ItemAnswers(parent, items, keys))
    decreases parent, 0, |items|
  {
    if |items| > 0 {
      assert items[0] in items;
      assert forall x :: x in items[1..] ==> x in items;
      SearchIsFirst(items[0], keys);
      ItemsSearchIsFirst(parent, items[1..], keys);
      FirstOfConcat(Answers(items[0], keys), ItemAnswers(parent, items[1..], keys));
    }
  }

  /**
   * The search returns the first answer in pre-order: an object's own top-level answer before any
   * nested one, and among nested ones the earliest member, or array item, whose subtree answers.
   */
  lemma GetNestedStringIsFirstAnswer(v: Json, keys: seq<string>)
    ensures GetNestedString(v, keys) == if |Answers(v, keys)| == 0 then None else Some(Answers(v, keys)[0])
  {
    if |keys| == 0 {
      NoKeysNoAnswers(v, keys);
    } else {
      SearchIsFirst(v, keys);
    }
  }

  /** Of two sibling objects that both answer, the earlier one wins: `{"a":{"tier":"gold"},"b":{"tier":"bronze"}}` gives "gold". */
  lemma EarlierSiblingWins()
    ensures GetNestedString(
      JObject([Member("a", JObject([Member("tier", JString("gold"))])),
               Member("b", JObject([Member("tier", JString("bronze"))]))]),
      ["tier"]) == Some("gold")
  {
    var inner := JObject([Member("tier", JString("gold"))]);
    assert EqualsIgnoreCase("tier", "tier");
    assert TopLevel(inner.members, ["tier"]) == Some("gold");
    assert !EqualsIgnoreCase("a", "tier");
    assert !EqualsIgnoreCase("b", "tier");
  }
}

/**
 * The phone-mapping audit: users grouped by phone number, each group
 * reported with a duplicate flag, and the user of the most recent call.
 */
module PhoneMappings {
  import opened Wrappers
  import opened Users
  import Lists

  /** The user's phone, with a missing one read as the empty string. */
  function PhoneOf(u: User): string {
    u.phoneNumber.GetOr("")
  }

  /** `if (u.phone_number)`: null, undefined and "" are falsy. */
  predicate HasPhone(u: User) {
    PhoneOf(u) != ""
  }

  /** The users with phone `phone`, in input order: the intended content of one bucket. */
  function Bucket(users: seq<User>, phone: string): seq<User>
    decreases |users|
  {
    if users == [] then []
    else
      var last := users[|users| - 1];
      Bucket(users[..|users| - 1], phone) + (if HasPhone(last) && PhoneOf(last) == phone then [last] else [])
  }

  /** The distinct phones of `users`, in order of first appearance: the order keys are created. */
  function Phones(users: seq<User>): seq<string>
    decreases |users|
  {
    if users == [] then []
    else
      var last := users[|users| - 1];
      var before := Phones(users[..|users| - 1]);
      before + (if HasPhone(last) && PhoneOf(last) !in before then [PhoneOf(last)] else [])
  }

  /** Number of users that have a phone. */
  function CountWithPhone(users: seq<User>): nat
    decreases |users|
  {
    if users == [] then 0
    else CountWithPhone(users[..|users| - 1]) + (if HasPhone(users[|users| - 1]) then 1 else 0)
  }

  /**
   * The `users.forEach` loop filling `phoneMap`: a missing key gets an empty
   * bucket, then the user is pushed onto its phone's bucket. `keys` is the
   * insertion order of the keys, which `Object.keys` later returns.
   */
  method GroupByPhone(users: seq<User>) returns (phoneMap: map<string, seq<User>>, keys: seq<string>)
    ensures keys == Phones(users)
    ensures forall k :: k in phoneMap <==> k in keys
    ensures forall k :: k in phoneMap ==> phoneMap[k] == Bucket(users, k)
  {
    phoneMap, keys := map[], [];
    var i := 0;
    while i < |users|
      invariant 0 <= i <= |users|
      invariant keys == Phones(users[..i])
      invariant forall k :: k in phoneMap <==> k in keys
      invariant forall k :: k in phoneMap ==> phoneMap[k] == Bucket(users[..i], k)
    {
      var u := users[i];
      assert users[..i + 1] == users[..i] + [u];
      GroupStep(users[..i], u);
      if HasPhone(u) {
        var phone := u.phoneNumber.value;
        if phone !in phoneMap {
          phoneMap := phoneMap[phone := []];
          keys := keys + [phone];
        }
        phoneMap := phoneMap[phone := phoneMap[phone] + [u]];
      }
      i := i + 1;
    }
    assert users[..i] == users;
  }

  /** What one more user contributes to the keys and to each bucket. */
  lemma GroupStep(prefix: seq<User>, u: User)
    ensures Phones(prefix + [u]) ==
      Phones(prefix) + (if HasPhone(u) && PhoneOf(u) !in Phones(prefix) then [PhoneOf(u)] else [])
    ensures forall k ::
              Bucket(prefix + [u], k) == Bucket(prefix, k) + (if HasPhone(u) && PhoneOf(u) == k then [u] else [])
    ensures forall k :: k !in Phones(prefix) ==> Bucket(prefix, k) == []
  {
    assert (prefix + [u])[..|prefix|] == prefix;
    BucketEmptyOffKeys(prefix);
  }

  /** A phone that is not (yet) a key has an empty bucket. */
  lemma {:induction false} BucketEmptyOffKeys(users: seq<User>)
    ensures forall k :: k !in Phones(users) ==> Bucket(users, k) == []
    decreases |users|
  {
    if users != [] {
      BucketEmptyOffKeys(users[..|users| - 1]);
    }
  }

  // ---------------------------------------------------------------------------
  // Properties of the grouping
  // ---------------------------------------------------------------------------

  /** The keys are exactly the distinct non-empty phones, each once. */
  lemma {:induction false} PhonesAreDistinctPhones(users: seq<User>)
    ensures forall k :: k in Phones(users) <==> exists i :: 0 <= i < |users| && HasPhone(users[i]) && PhoneOf(users[i]) == k
    ensures forall i, j :: 0 <= i < j < |Phones(users)| ==> Phones(users)[i] != Phones(users)[j]
    decreases |users|
  {
    if users != [] {
      var init := users[..|users| - 1];
      PhonesAreDistinctPhones(init);
      forall k ensures k in Phones(users) <==> exists i :: 0 <= i < |users| && HasPhone(users[i]) && PhoneOf(users[i]) == k {
        if k in Phones(init) {
          var i :| 0 <= i < |init| && HasPhone(init[i]) && PhoneOf(init[i]) == k;
          assert users[i] == init[i];
        }
        if exists i :: 0 <= i < |users| && HasPhone(users[i]) && PhoneOf(users[i]) == k {
          var i :| 0 <= i < |users| && HasPhone(users[i]) && PhoneOf(users[i]) == k;
          if i < |init| {
            assert init[i] == users[i];
          }
        }
      }
    }
  }

  /** Every member of a bucket has a phone, and it is the bucket's key. */
  lemma {:induction false} BucketMembers(users: seq<User>, phone: string)
    ensures forall u :: u in Bucket(users, phone) ==> HasPhone(u) && PhoneOf(u) == phone
    decreases |users|
  {
    if users != [] {
      BucketMembers(users[..|users| - 1], phone);
    }
  }

  /** Grouping distributes over concatenation: users keep their relative input order. */
  lemma {:induction false} BucketAppend(a: seq<User>, b: seq<User>, phone: string)
    ensures Bucket(a + b, phone) == Bucket(a, phone) + Bucket(b, phone)
    decreases |b|
  {
    if b == [] {
      assert a + b == a;
    } else {
      var b' := b[..|b| - 1];
      assert (a + b)[..|a + b| - 1] == a + b';
      assert (a + b)[|a + b| - 1] == b[|b| - 1];
      BucketAppend(a, b', phone);
    }
  }

  /**
   * Each occurrence of a user with a phone lands once in the bucket of its
   * own phone and in no other; a user without a phone is in no bucket.
   */
  lemma {:induction false} BucketMultiplicity(users: seq<User>, phone: string, u: User)
    ensures multiset(Bucket(users, phone))[u] ==
      if HasPhone(u) && PhoneOf(u) == phone then multiset(users)[u] else 0
    decreases |users|
  {
    if users != [] {
      var init := users[..|users| - 1];
      assert users == init + [users[|users| - 1]];
      BucketMultiplicity(init, phone, u);
    }
  }

  function SumSizes(keys: seq<string>, users: seq<User>): nat
    decreases |keys|
  {
    if keys == [] then 0 else SumSizes(keys[..|keys| - 1], users) + |Bucket(users, keys[|keys| - 1])|
  }

  /** Adding one user changes the sizes over distinct keys by one exactly when its phone is a key. */
  lemma {:induction false} SumSizesSnoc(keys: seq<string>, users: seq<User>, u: User)
    requires forall i, j :: 0 <= i < j < |keys| ==> keys[i] != keys[j]
    ensures SumSizes(keys, users + [u]) ==
      SumSizes(keys, users) + (if HasPhone(u) && PhoneOf(u) in keys then 1 else 0)
    decreases |keys|
  {
    if keys != [] {
      var init := keys[..|keys| - 1];
      var k := keys[|keys| - 1];
      SumSizesSnoc(init, users, u);
      assert (users + [u])[..|users + [u]| - 1] == users;
      assert PhoneOf(u) in keys <==> PhoneOf(u) in init || PhoneOf(u) == k;
      if PhoneOf(u) == k {
        assert k !in init by {
          forall i | 0 <= i < |init| ensures init[i] != k {
            assert keys[i] == init[i];
          }
        }
      }
    }
  }

  /** The bucket sizes add up to the number of users that have a phone. */
  lemma {:induction false} BucketSizesSum(users: seq<User>)
    ensures SumSizes(Phones(users), users) == CountWithPhone(users)
    decreases |users|
  {
    if users != [] {
      var init := users[..|users| - 1];
      var u := users[|users| - 1];
      assert users == init + [u];
      BucketSizesSum(init);
      PhonesAreDistinctPhones(init);
      SumSizesSnoc(Phones(init), init, u);
      assert Phones(users) == Phones(init) + (if HasPhone(u) && PhoneOf(u) !in Phones(init) then [PhoneOf(u)] else []);
      assert CountWithPhone(users) == CountWithPhone(init) + (if HasPhone(u) then 1 else 0);
      if HasPhone(u) && PhoneOf(u) !in Phones(init) {
        BucketEmptyOffKeys(init);
        assert Bucket(users, PhoneOf(u)) == [u];
        var keys := Phones(init) + [PhoneOf(u)];
        assert Phones(users) == keys;
        assert keys[..|keys| - 1] == Phones(init);
        assert SumSizes(keys, users) == SumSizes(Phones(init), users) + |Bucket(users, PhoneOf(u))|;
        assert SumSizes(Phones(init), users) == SumSizes(Phones(init), init);
        assert SumSizes(Phones(init), init) == CountWithPhone(init);
      } else {
        assert Phones(users) == Phones(init);
        assert SumSizes(Phones(init), users) == SumSizes(Phones(init), init) + (if HasPhone(u) then 1 else 0);
      }
    }
  }

  // ---------------------------------------------------------------------------
  // The report and the recent-call match
  // ---------------------------------------------------------------------------

  /** One printed block: the phone, whether it is flagged DUPLICATE, and its users. */
  datatype Assignment = Assignment(phone: string, duplicate: bool, users: seq<User>)

  /** The `Object.keys(phoneMap).forEach` loop. */
  method Report(phoneMap: map<string, seq<User>>, keys: seq<string>) returns (lines: seq<Assignment>)
    requires forall k :: k in keys ==> k in phoneMap
    ensures |lines| == |keys|
    ensures forall i :: 0 <= i < |keys| ==>
      lines[i].phone == keys[i] && lines[i].users == phoneMap[keys[i]]
    ensures forall i :: 0 <= i < |keys| ==> (lines[i].duplicate <==> |phoneMap[keys[i]]| > 1)
  {
    lines := [];
    for i := 0 to |keys|
      invariant |lines| == i
      invariant forall j :: 0 <= j < i ==>
        lines[j] == Assignment(keys[j], |phoneMap[keys[j]]| > 1, phoneMap[keys[j]])
    {
      var usersWithPhone := phoneMap[keys[i]];
      lines := lines + [Assignment(keys[i], |usersWithPhone| > 1, usersWithPhone)];
    }
  }

  /**
   * The whole audit for a user list and the `user_id` of the most recent
   * call: one block per distinct phone, in first-appearance order, and the
   * first user with that id.
   */
  method CheckMappings(users: seq<User>, recentCallUserId: string)
    returns (lines: seq<Assignment>, userForCall: Option<User>)
    ensures |lines| == |Phones(users)|
    ensures forall i :: 0 <= i < |lines| ==>
      && lines[i].phone == Phones(users)[i]
      && lines[i].users == Bucket(users, lines[i].phone)
      && (lines[i].duplicate <==> |lines[i].users| > 1)
    ensures forall i :: 0 <= i < |users| && users[i].id == recentCallUserId &&
                        (forall j :: 0 <= j < i ==> users[j].id != recentCallUserId) ==>
                        userForCall == Some(users[i])
    ensures (forall j :: 0 <= j < |users| ==> users[j].id != recentCallUserId) ==> userForCall == None
  {
    var phoneMap, keys := GroupByPhone(users);
    lines := Report(phoneMap, keys);
    userForCall := Lists.Find(users, (u: User) => u.id == recentCallUserId);
  }

  /** User `i` of `users` has phone `phone`. */
  predicate PhoneAt(users: seq<User>, i: nat, phone: string)
    requires i < |users|
  {
    HasPhone(users[i]) && PhoneOf(users[i]) == phone
  }

  /** A bucket is non-empty exactly when some user has its phone. */
  lemma {:induction false} BucketNonEmpty(users: seq<User>, phone: string)
    ensures Bucket(users, phone) != [] <==> exists i :: 0 <= i < |users| && PhoneAt(users, i, phone)
    decreases |users|
  {
    if users != [] {
      var init := users[..|users| - 1];
      var n := |users| - 1;
      assert Bucket(users, phone) == Bucket(init, phone) + (if PhoneAt(users, n, phone) then [users[n]] else []);
      BucketNonEmpty(init, phone);
      if exists i :: 0 <= i < |init| && PhoneAt(init, i, phone) {
        var i :| 0 <= i < |init| && PhoneAt(init, i, phone);
        assert PhoneAt(users, i, phone);
      }
      if exists i :: 0 <= i < |users| && PhoneAt(users, i, phone) {
        var i :| 0 <= i < |users| && PhoneAt(users, i, phone);
        if i < |init| {
          assert PhoneAt(init, i, phone);
        }
      }
    }
  }

  /** A phone is flagged DUPLICATE exactly when two different users have it. */
  lemma {:induction false} DuplicateIffShared(users: seq<User>, phone: string)
    ensures |Bucket(users, phone)| > 1 <==>
      exists i, j :: 0 <= i < j < |users| && PhoneAt(users, i, phone) && PhoneAt(users, j, phone)
    decreases |users|
  {
    if users != [] {
      var init := users[..|users| - 1];
      var n := |users| - 1;
      assert Bucket(users, phone) == Bucket(init, phone) + (if PhoneAt(users, n, phone) then [users[n]] else []);
      DuplicateIffShared(init, phone);
      BucketNonEmpty(init, phone);
      if exists i, j :: 0 <= i < j < |init| && PhoneAt(init, i, phone) && PhoneAt(init, j, phone) {
        var i, j :| 0 <= i < j < |init| && PhoneAt(init, i, phone) && PhoneAt(init, j, phone);
        assert PhoneAt(users, i, phone) && PhoneAt(users, j, phone);
      }
      if PhoneAt(users, n, phone) && exists i :: 0 <= i < |init| && PhoneAt(init, i, phone) {
        var i :| 0 <= i < |init| && PhoneAt(init, i, phone);
        assert PhoneAt(users, i, phone);
      }
      if exists i, j :: 0 <= i < j < |users| && PhoneAt(users, i, phone) && PhoneAt(users, j, phone) {
        var i, j :| 0 <= i < j < |users| && PhoneAt(users, i, phone) && PhoneAt(users, j, phone);
        assert PhoneAt(init, i, phone);
        if j < n {
          assert PhoneAt(init, j, phone);
        }
      }
    }
  }
}

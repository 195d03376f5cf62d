/** The canonical form that agent-call fingerprints and stored arguments rest on. */
module CanonicalJson {
  import opened Wrappers
  import opened JsonTree

  /** Parsed objects never hold one key twice. */
  ghost predicate WellFormed(j: Json) {
    match j
    case JArray(items) => forall i | 0 <= i < |items| :: WellFormed(items[i])
    case JObject(ms) => DistinctKeys(ms) && forall i | 0 <= i < |ms| :: WellFormed(ms[i].value)
    case _ => true
  }

  /** No number anywhere overflows a double. */
  ghost predicate AllFinite(j: Json) {
    match j
    case JNumber(_, finite) => finite
    case JArray(items) => forall i | 0 <= i < |items| :: AllFinite(items[i])
    case JObject(ms) => forall i | 0 <= i < |ms| :: AllFinite(ms[i].value)
    case _ => true
  }

  /** None is the validation exception. */
  function Normalize(j: Json): (r: Option<Json>)
    decreases j, 0
  {
    match j
    case JNumber(_, finite) => if finite then Some(j) else None
    case JArray(items) =>
      (match NormalizeItems(items) case None => None case Some(ns) => Some(JArray(ns)))
    case JObject(ms) =>
      (match NormalizeMembers(ms) case None => None case Some(ns) => Some(JObject(SortByKey(ns))))
    case _ => Some(j)
  }

  function NormalizeItems(items: seq<Json>): (r: Option<seq<Json>>)
    ensures r.Some? ==> |r.value| == |items| &&
                        forall i | 0 <= i < |items| :: Normalize(items[i]) == Some(r.value[i])
    ensures r.None? ==> exists i | 0 <= i < |items| :: Normalize(items[i]).None?
    decreases items, 1
  {
    if items == [] then Some([])
    else
      match (Normalize(items[0]), NormalizeItems(items[1..]))
      case (Some(n), Some(ns)) => Some([n] + ns)
      case _ => None
  }

  function NormalizeMembers(ms: seq<Member>): (r: Option<seq<Member>>)
    ensures r.Some? ==> |r.value| == |ms| &&
                        forall i | 0 <= i < |ms| :: r.value[i].key == ms[i].key &&
                                                    Normalize(ms[i].value) == Some(r.value[i].value)
    ensures r.None? ==> exists i | 0 <= i < |ms| :: Normalize(ms[i].value).None?
    decreases ms, 1
  {
    if ms == [] then Some([])
    else
      match (Normalize(ms[0].value), NormalizeMembers(ms[1..]))
      case (Some(n), Some(ns)) => Some([Member(ms[0].key, n)] + ns)
      case _ => None
  }

  /** Reference notion: the trees differ at most in member order, at any depth. */
  ghost predicate SameUpToOrder(a: Json, b: Json) {
    match (a, b)
    case (JArray(xs), JArray(ys)) =>
      |xs| == |ys| && forall i | 0 <= i < |xs| :: SameUpToOrder(xs[i], ys[i])
    case (JObject(xs), JObject(ys)) =>
      |xs| == |ys| && forall i | 0 <= i < |xs| :: HasTwin(xs[i], ys)
    case _ => a == b
  }

  ghost predicate HasTwin(m: Member, ys: seq<Member>) {
    exists j | 0 <= j < |ys| :: m.key == ys[j].key && SameUpToOrder(m.value, ys[j].value)
  }

  ghost predicate HasKey(ys: seq<Member>, key: string) {
    exists j | 0 <= j < |ys| :: ys[j].key == key
  }

  /** Normalising fails exactly on a tree that holds a non-finite number. */
  lemma {:induction false} AcceptsExactlyFinite(j: Json)
    ensures Normalize(j).Some? <==> AllFinite(j)
    decreases j
  {
    match j
    case JArray(items) =>
      forall i | 0 <= i < |items| ensures Normalize(items[i]).Some? <==> AllFinite(items[i]) {
        AcceptsExactlyFinite(items[i]);
      }
    case JObject(ms) =>
      forall i | 0 <= i < |ms| ensures Normalize(ms[i].value).Some? <==> AllFinite(ms[i].value) {
        AcceptsExactlyFinite(ms[i].value);
      }
    case _ =>
  }

  /** Every object, at any depth, has its members in key order. */
  ghost predicate SortedDeep(j: Json) {
    match j
    case JArray(items) => forall i | 0 <= i < |items| :: SortedDeep(items[i])
    case JObject(ms) => SortedByKey(ms) && forall i | 0 <= i < |ms| :: SortedDeep(ms[i].value)
    case _ => true
  }

  lemma {:induction false} NormalFormIsSorted(j: Json)
    requires Normalize(j).Some?
    ensures SortedDeep(Normalize(j).value)
    decreases j
  {
    match j
    case JArray(items) =>
      forall i | 0 <= i < |items| ensures SortedDeep(NormalizeItems(items).value[i]) {
        NormalFormIsSorted(items[i]);
      }
    case JObject(ms) =>
      var ns := NormalizeMembers(ms).value;
      SortByKeySorts(ns);
      SameMultisetSameMembers(ns, SortByKey(ns));
      forall k | 0 <= k < |SortByKey(ns)| ensures SortedDeep(SortByKey(ns)[k].value) {
        assert SortByKey(ns)[k] in ns;
        var i :| 0 <= i < |ns| && ns[i] == SortByKey(ns)[k];
        NormalFormIsSorted(ms[i].value);
      }
    case _ =>
  }

  /** A tree is its own canonical form exactly when it is finite and sorted throughout. */
  lemma {:induction false} NormalFormsAreTheSortedTrees(j: Json)
    requires WellFormed(j)
    ensures Normalize(j) == Some(j) <==> AllFinite(j) && SortedDeep(j)
    decreases j
  {
    AcceptsExactlyFinite(j);
    if Normalize(j).Some? {
      NormalFormIsSorted(j);
      if SortedDeep(j) {
        SortedTreeIsNormal(j);
      }
    }
  }

  lemma {:induction false} SortedTreeIsNormal(j: Json)
    requires WellFormed(j) && SortedDeep(j) && Normalize(j).Some?
    ensures Normalize(j) == Some(j)
    decreases j
  {
    match j
    case JArray(items) =>
      forall i | 0 <= i < |items| ensures NormalizeItems(items).value[i] == items[i] {
        SortedTreeIsNormal(items[i]);
      }
      assert NormalizeItems(items).value == items;
    case JObject(ms) =>
      forall i | 0 <= i < |ms| ensures NormalizeMembers(ms).value[i] == ms[i] {
        SortedTreeIsNormal(ms[i].value);
      }
      assert NormalizeMembers(ms).value == ms;
      SortedListIsItsSort(ms, ms);
    case _ =>
  }

  /** The canonical form sorts every object and is otherwise the same tree. */
  lemma {:induction false} NormalizeKeepsTree(j: Json)
    requires WellFormed(j) && Normalize(j).Some?
    ensures SameUpToOrder(j, Normalize(j).value)
    ensures WellFormed(Normalize(j).value) && AllFinite(Normalize(j).value) && SortedDeep(Normalize(j).value)
    decreases j
  {
    NormalFormIsSorted(j);
    match j
    case JArray(items) =>
      forall i | 0 <= i < |items|
        ensures SameUpToOrder(items[i], Normalize(items[i]).value)
        ensures WellFormed(Normalize(items[i]).value) && AllFinite(Normalize(items[i]).value)
      {
        NormalizeKeepsTree(items[i]);
      }
    case JObject(ms) =>
      var ns := NormalizeMembers(ms).value;
      var sorted := SortByKey(ns);
      SortByKeySorts(ns);
      SameMultisetSameMembers(ns, sorted);
      forall i | 0 <= i < |ms|
        ensures HasTwin(ms[i], sorted)
      {
        NormalizeKeepsTree(ms[i].value);
        assert ns[i] in ns;
        var k :| 0 <= k < |sorted| && sorted[k] == ns[i];
      }
      forall k | 0 <= k < |sorted| ensures WellFormed(sorted[k].value) && AllFinite(sorted[k].value) {
        assert sorted[k] in sorted;
        var i :| 0 <= i < |ns| && ns[i] == sorted[k];
        NormalizeKeepsTree(ms[i].value);
      }
    case _ =>
  }

  /** Trees that differ only in member order have one canonical form. */
  lemma {:induction false} SameTreesNormalizeAlike(a: Json, b: Json)
    requires WellFormed(a) && WellFormed(b) && Normalize(a).Some? && Normalize(b).Some?
    requires SameUpToOrder(a, b)
    ensures Normalize(a) == Normalize(b)
    decreases a
  {
    match (a, b)
    case (JArray(xs), JArray(ys)) =>
      forall i | 0 <= i < |xs| ensures Normalize(xs[i]) == Normalize(ys[i]) {
        SameTreesNormalizeAlike(xs[i], ys[i]);
      }
      assert NormalizeItems(xs).value == NormalizeItems(ys).value;
    case (JObject(xs), JObject(ys)) =>
      var xn, yn := NormalizeMembers(xs).value, NormalizeMembers(ys).value;
      forall i | 0 <= i < |xn| ensures xn[i] in yn {
        assert HasTwin(xs[i], ys);
        var j :| 0 <= j < |ys| && xs[i].key == ys[j].key && SameUpToOrder(xs[i].value, ys[j].value);
        SameTreesNormalizeAlike(xs[i].value, ys[j].value);
        assert yn[j] == xn[i];
      }
      SameContentsSortAlike(xn, yn);
    case _ =>
  }

  /** Among lists of distinct keys, inclusion at equal length is equality of contents. */
  lemma InclusionOfEqualSizeIsEquality(s: seq<Member>, t: seq<Member>)
    requires |s| == |t| && DistinctKeys(s) && DistinctKeys(t)
    requires forall m | m in s :: m in t
    ensures forall m :: m in s <==> m in t
  {
    DistinctListIsItsSet(s);
    DistinctListIsItsSet(t);
    var a, b := set m | m in s, set m | m in t;
    assert a <= b;
    assert |b - a| == |b| - |a|;
    assert b == a + (b - a);
    forall m ensures m in s <==> m in t {
      assert m in a <==> m in b;
    }
  }

  lemma {:induction false} DistinctListIsItsSet(s: seq<Member>)
    requires DistinctKeys(s)
    ensures |set m | m in s| == |s|
  {
    if s != [] {
      DistinctListIsItsSet(s[1..]);
      assert (set m | m in s) == (set m | m in s[1..]) + {s[0]};
      assert s[0] !in s[1..];
    }
  }

  lemma SortedFormIsUnique(s: seq<Member>, t: seq<Member>)
    requires |s| == |t| && DistinctKeys(s) && DistinctKeys(t)
    requires forall m :: m in s <==> m in t
    ensures SortByKey(s) == SortByKey(t)
  {
    SortByKeySorts(s);
    SortByKeySorts(t);
    SameMultisetSameMembers(s, SortByKey(s));
    SameMultisetSameMembers(t, SortByKey(t));
    SortedListIsUnique(SortByKey(s), SortByKey(t));
  }

  lemma SameContentsSortAlike(s: seq<Member>, t: seq<Member>)
    requires |s| == |t| && DistinctKeys(s) && DistinctKeys(t)
    requires forall i | 0 <= i < |s| :: s[i] in t
    ensures SortByKey(s) == SortByKey(t)
  {
    InclusionOfEqualSizeIsEquality(s, t);
    SortedFormIsUnique(s, t);
  }

  lemma {:induction false} SameUpToOrderReversed(a: Json, b: Json)
    requires WellFormed(a) && WellFormed(b) && SameUpToOrder(a, b)
    ensures SameUpToOrder(b, a)
    decreases a
  {
    match (a, b)
    case (JArray(xs), JArray(ys)) =>
      forall i | 0 <= i < |xs| ensures SameUpToOrder(ys[i], xs[i]) {
        SameUpToOrderReversed(xs[i], ys[i]);
      }
    case (JObject(xs), JObject(ys)) =>
      forall j | 0 <= j < |ys|
        ensures HasTwin(ys[j], xs)
      {
        forall i | 0 <= i < |xs| ensures HasKey(ys, xs[i].key) {
          assert HasTwin(xs[i], ys);
          var k :| 0 <= k < |ys| && xs[i].key == ys[k].key && SameUpToOrder(xs[i].value, ys[k].value);
        }
        var i := KeyHasPreimage(xs, ys, j);
        assert HasTwin(xs[i], ys);
        var k :| 0 <= k < |ys| && xs[i].key == ys[k].key && SameUpToOrder(xs[i].value, ys[k].value);
        assert k == j;
        SameUpToOrderReversed(xs[i].value, ys[j].value);
      }
    case _ =>
  }

  lemma KeyHasPreimage(xs: seq<Member>, ys: seq<Member>, j: nat) returns (i: nat)
    requires |xs| == |ys| && DistinctKeys(xs) && DistinctKeys(ys) && j < |ys|
    requires forall i | 0 <= i < |xs| :: HasKey(ys, xs[i].key)
    ensures i < |xs| && xs[i].key == ys[j].key
  {
    var a := seq(|xs|, i requires 0 <= i < |xs| => Member(xs[i].key, JNull));
    var b := seq(|ys|, i requires 0 <= i < |ys| => Member(ys[i].key, JNull));
    forall m | m in a ensures m in b {
      var i :| 0 <= i < |a| && a[i] == m;
      assert HasKey(ys, xs[i].key);
      var k :| 0 <= k < |ys| && xs[i].key == ys[k].key;
      assert b[k] == m;
    }
    InclusionOfEqualSizeIsEquality(a, b);
    assert b[j] in b;
    i :| 0 <= i < |a| && a[i] == b[j];
  }

  lemma {:induction false} SameUpToOrderChains(a: Json, b: Json, c: Json)
    requires SameUpToOrder(a, b) && SameUpToOrder(b, c)
    ensures SameUpToOrder(a, c)
    decreases a
  {
    match (a, b, c)
    case (JArray(xs), JArray(ys), JArray(zs)) =>
      forall i | 0 <= i < |xs| ensures SameUpToOrder(xs[i], zs[i]) {
        SameUpToOrderChains(xs[i], ys[i], zs[i]);
      }
    case (JObject(xs), JObject(ys), JObject(zs)) =>
      forall i | 0 <= i < |xs|
        ensures HasTwin(xs[i], zs)
      {
        assert HasTwin(xs[i], ys);
        var j :| 0 <= j < |ys| && xs[i].key == ys[j].key && SameUpToOrder(xs[i].value, ys[j].value);
        assert HasTwin(ys[j], zs);
        var k :| 0 <= k < |zs| && ys[j].key == zs[k].key && SameUpToOrder(ys[j].value, zs[k].value);
        SameUpToOrderChains(xs[i].value, ys[j].value, zs[k].value);
      }
    case _ =>
  }

  /** Canonical forms are equal exactly for trees that differ only in member order. */
  lemma CanonicalFormDecidesSameness(a: Json, b: Json)
    requires WellFormed(a) && WellFormed(b) && AllFinite(a) && AllFinite(b)
    ensures Normalize(a) == Normalize(b) <==> SameUpToOrder(a, b)
  {
    AcceptsExactlyFinite(a);
    AcceptsExactlyFinite(b);
    if SameUpToOrder(a, b) {
      SameTreesNormalizeAlike(a, b);
    }
    if Normalize(a) == Normalize(b) {
      NormalizeKeepsTree(a);
      NormalizeKeepsTree(b);
      SameUpToOrderReversed(b, Normalize(b).value);
      SameUpToOrderChains(a, Normalize(a).value, b);
    }
  }

  /** Normalising a canonical tree changes nothing. */
  lemma NormalizeIsIdempotent(j: Json)
    requires WellFormed(j) && Normalize(j).Some?
    ensures Normalize(Normalize(j).value) == Normalize(j)
  {
    NormalizeKeepsTree(j);
    AcceptsExactlyFinite(j);
    CanonicalFormDecidesSameness(j, Normalize(j).value);
  }

  /** The object a call's fingerprint hashes. */
  function FingerprintInput(args: Json, input: Json, options: Json): Json {
    JObject([Member("args", args), Member("input", input), Member("options", options)])
  }

  /** None is the exception for a non-finite number; `digest` stands for the hash of the canonical text. */
  function Fingerprint(digest: Json -> string, args: Json, input: Json, options: Json): Option<string> {
    match Normalize(FingerprintInput(args, input, options))
    case None => None
    case Some(n) => Some(digest(n))
  }

  ghost predicate Injective(digest: Json -> string) {
    forall a, b | digest(a) == digest(b) :: a == b
  }

  /** Objects that list the same distinct keys in the same order compare member by member. */
  lemma AlignedObjectsCompareMemberwise(xs: seq<Member>, ys: seq<Member>)
    requires |xs| == |ys| && forall i | 0 <= i < |xs| :: xs[i].key == ys[i].key
    requires forall i, j | 0 <= i < |xs| && 0 <= j < |xs| && i != j :: xs[i].key != xs[j].key
    ensures SameUpToOrder(JObject(xs), JObject(ys))
            <==> forall i | 0 <= i < |xs| :: SameUpToOrder(xs[i].value, ys[i].value)
  {
    if forall i | 0 <= i < |xs| :: SameUpToOrder(xs[i].value, ys[i].value) {
      forall i | 0 <= i < |xs|
        ensures HasTwin(xs[i], ys)
      {
        assert xs[i].key == ys[i].key && SameUpToOrder(xs[i].value, ys[i].value);
      }
    }
    if SameUpToOrder(JObject(xs), JObject(ys)) {
      forall i | 0 <= i < |xs| ensures SameUpToOrder(xs[i].value, ys[i].value) {
        TwinHasSameKey(xs, ys, i);
      }
    }
  }

  lemma ObjectsOfThreeCompareMemberwise(k: seq<string>, x: seq<Json>, y: seq<Json>)
    requires |k| == |x| == |y| == 3 && k[0] != k[1] && k[0] != k[2] && k[1] != k[2]
    ensures SameUpToOrder(JObject([Member(k[0], x[0]), Member(k[1], x[1]), Member(k[2], x[2])]),
                          JObject([Member(k[0], y[0]), Member(k[1], y[1]), Member(k[2], y[2])]))
            <==> forall i | 0 <= i < 3 :: SameUpToOrder(x[i], y[i])
  {
    var xs := [Member(k[0], x[0]), Member(k[1], x[1]), Member(k[2], x[2])];
    var ys := [Member(k[0], y[0]), Member(k[1], y[1]), Member(k[2], y[2])];
    AlignedObjectsCompareMemberwise(xs, ys);
    assert forall i | 0 <= i < 3 :: xs[i].value == x[i] && ys[i].value == y[i];
  }

  lemma TwinHasSameKey(xs: seq<Member>, ys: seq<Member>, i: nat)
    requires |xs| == |ys| && i < |xs| && HasTwin(xs[i], ys)
    requires forall j | 0 <= j < |ys| :: ys[j].key == xs[i].key ==> j == i
    ensures SameUpToOrder(xs[i].value, ys[i].value)
  {
    var j :| 0 <= j < |ys| && xs[i].key == ys[j].key && SameUpToOrder(xs[i].value, ys[j].value);
  }

  /** Two calls share a fingerprint exactly when args, input and options agree up to member order. */
  lemma FingerprintDecidesSameCall(digest: Json -> string,
      args: Json, input: Json, options: Json, args': Json, input': Json, options': Json)
    requires Injective(digest)
    requires WellFormed(args) && WellFormed(input) && WellFormed(options)
    requires WellFormed(args') && WellFormed(input') && WellFormed(options')
    requires AllFinite(args) && AllFinite(input) && AllFinite(options)
    requires AllFinite(args') && AllFinite(input') && AllFinite(options')
    ensures Fingerprint(digest, args, input, options).Some?
    ensures Fingerprint(digest, args, input, options) == Fingerprint(digest, args', input', options') <==>
            SameUpToOrder(args, args') && SameUpToOrder(input, input') && SameUpToOrder(options, options')
  {
    var a, b := FingerprintInput(args, input, options), FingerprintInput(args', input', options');
    FingerprintInputIsValid(args, input, options);
    FingerprintInputIsValid(args', input', options');
    AcceptsExactlyFinite(a);
    AcceptsExactlyFinite(b);
    CanonicalFormDecidesSameness(a, b);
    FingerprintInputsCompareMemberwise(args, input, options, args', input', options');
  }

  lemma FingerprintKeysDiffer()
    ensures "args" != "input" && "args" != "options" && "input" != "options"
  {
    assert "args"[0] == 'a' && "input"[0] == 'i' && "options"[0] == 'o';
  }

  lemma FingerprintInputIsValid(args: Json, input: Json, options: Json)
    requires WellFormed(args) && WellFormed(input) && WellFormed(options)
    requires AllFinite(args) && AllFinite(input) && AllFinite(options)
    ensures WellFormed(FingerprintInput(args, input, options)) && AllFinite(FingerprintInput(args, input, options))
  {
    FingerprintKeysDiffer();
  }

  lemma FingerprintInputsCompareMemberwise(args: Json, input: Json, options: Json, args': Json, input': Json,
                                           options': Json)
    ensures SameUpToOrder(FingerprintInput(args, input, options), FingerprintInput(args', input', options')) <==>
            SameUpToOrder(args, args') && SameUpToOrder(input, input') && SameUpToOrder(options, options')
  {
    FingerprintKeysDiffer();
    var k, x, y := ["args", "input", "options"], [args, input, options], [args', input', options'];
    ObjectsOfThreeCompareMemberwise(k, x, y);
    assert (forall i | 0 <= i < 3 :: SameUpToOrder(x[i], y[i])) <==>
           SameUpToOrder(x[0], y[0]) && SameUpToOrder(x[1], y[1]) && SameUpToOrder(x[2], y[2]);
  }

  /** Assignment by key on the object being filled: replace in place or append. */
  function SetMember(ms: seq<Member>, key: string, value: Json): seq<Member> {
    if ms == [] then [Member(key, value)]
    else if ms[0].key == key then [Member(key, value)] + ms[1..]
    else [ms[0]] + SetMember(ms[1..], key, value)
  }

  lemma {:induction false} SetNewMemberAppends(ms: seq<Member>, key: string, value: Json)
    requires forall i | 0 <= i < |ms| :: ms[i].key != key
    ensures SetMember(ms, key, value) == ms + [Member(key, value)]
  {
    if ms != [] {
      SetNewMemberAppends(ms[1..], key, value);
    }
  }

  /** The loop that fills a fresh object in key order. */
  method NormalizeObject(members: seq<Member>) returns (r: Option<Json>)
    requires DistinctKeys(members)
    ensures r == Normalize(JObject(members))
  {
    var sorted := SortByKey(members);
    SortByKeySorts(members);
    SameMultisetSameMembers(members, sorted);
    var result: seq<Member> := [];
    for i := 0 to |sorted|
      invariant |result| == i
      invariant forall k | 0 <= k < i ::
                  result[k].key == sorted[k].key && Normalize(sorted[k].value) == Some(result[k].value)
    {
      var value := Normalize(sorted[i].value);
      if value.None? {
        assert sorted[i] in sorted;
        var k :| 0 <= k < |members| && members[k] == sorted[i];
        return None;
      }
      SetNewMemberAppends(result, sorted[i].key, value.value);
      result := SetMember(result, sorted[i].key, value.value);
    }
    FilledObjectIsSorted(members, sorted, result);
    r := Some(JObject(result));
  }

  lemma FilledObjectIsSorted(members: seq<Member>, sorted: seq<Member>, result: seq<Member>)
    requires DistinctKeys(members) && SortedByKey(sorted) && multiset(sorted) == multiset(members)
    requires |result| == |sorted|
    requires forall k | 0 <= k < |sorted| ::
               result[k].key == sorted[k].key && Normalize(sorted[k].value) == Some(result[k].value)
    ensures NormalizeMembers(members).Some?
    ensures SortByKey(NormalizeMembers(members).value) == result
  {
    SameMultisetSameMembers(sorted, members);
    SameMultisetSameMembers(members, sorted);
    forall i | 0 <= i < |members| ensures Normalize(members[i].value).Some? {
      assert members[i] in members;
      var k :| 0 <= k < |sorted| && sorted[k] == members[i];
    }
    var ns := NormalizeMembers(members).value;
    forall m | m in ns ensures m in result {
      var i :| 0 <= i < |ns| && ns[i] == m;
      assert members[i] in members;
      var k :| 0 <= k < |sorted| && sorted[k] == members[i];
      assert result[k] == m;
    }
    InclusionOfEqualSizeIsEquality(ns, result);
    SortedFormIsUnique(ns, result);
    SortByKeySorts(result);
    SameMultisetSameMembers(result, SortByKey(result));
    SortedListIsUnique(SortByKey(result), result);
  }
}

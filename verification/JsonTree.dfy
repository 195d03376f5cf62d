/** JSON trees as the program reads them. */
module JsonTree {
  /** The characters of JSON number text. */
  predicate IsNumeral(s: string) {
    s != [] && forall i | 0 <= i < |s| :: '0' <= s[i] <= '9' || s[i] in {'-', '+', '.', 'e', 'E'}
  }

  type Numeral = s: string | IsNumeral(s) witness "0"

  /** A number keeps its source text; `finite` says whether it is a finite double. */
  datatype Json =
    | JNull
    | JBool(b: bool)
    | JNumber(text: Numeral, finite: bool)
    | JString(s: string)
    | JArray(items: seq<Json>)
    | JObject(members: seq<Member>)

  datatype Member = Member(key: string, value: Json)

  predicate DistinctKeys(ms: seq<Member>) {
    forall i, j | 0 <= i < j < |ms| :: ms[i].key != ms[j].key
  }

  /** Ordinal string order: by the first differing character, a prefix first. */
  predicate KeyLe(a: string, b: string) {
    if a == [] then true
    else if b == [] then false
    else if a[0] != b[0] then a[0] < b[0]
    else KeyLe(a[1..], b[1..])
  }

  lemma KeyLeTotal(a: string, b: string)
    ensures KeyLe(a, b) || KeyLe(b, a)
  {
  }

  lemma {:induction false} KeyLeAntisymmetric(a: string, b: string)
    requires KeyLe(a, b) && KeyLe(b, a)
    ensures a == b
  {
    if a != [] {
      KeyLeAntisymmetric(a[1..], b[1..]);
      assert a == [a[0]] + a[1..] && b == [b[0]] + b[1..];
    }
  }

  lemma KeyLeTransitive(a: string, b: string, c: string)
    requires KeyLe(a, b) && KeyLe(b, c)
    ensures KeyLe(a, c)
  {
  }

  /** Insertion before the first member whose key is not smaller. */
  function InsertByKey(m: Member, ms: seq<Member>): seq<Member> {
    if ms == [] || KeyLe(m.key, ms[0].key) then [m] + ms
    else [ms[0]] + InsertByKey(m, ms[1..])
  }

  /** The stable ordinal sort by key. */
  function SortByKey(ms: seq<Member>): seq<Member> {
    if ms == [] then [] else InsertByKey(ms[0], SortByKey(ms[1..]))
  }

  predicate SortedByKey(ms: seq<Member>) {
    forall i, j | 0 <= i < j < |ms| :: KeyLe(ms[i].key, ms[j].key)
  }

  lemma {:induction false} InsertByKeySorted(m: Member, ms: seq<Member>)
    requires SortedByKey(ms)
    ensures SortedByKey(InsertByKey(m, ms))
    ensures multiset(InsertByKey(m, ms)) == multiset{m} + multiset(ms)
  {
    if ms == [] {
    } else if KeyLe(m.key, ms[0].key) {
      forall j | 0 <= j < |ms| ensures KeyLe(m.key, ms[j].key) {
        if j > 0 { KeyLeTransitive(m.key, ms[0].key, ms[j].key); }
      }
    } else {
      assert ms == [ms[0]] + ms[1..];
      InsertByKeySorted(m, ms[1..]);
      var rest := InsertByKey(m, ms[1..]);
      KeyLeTotal(m.key, ms[0].key);
      forall j | 0 <= j < |rest| ensures KeyLe(ms[0].key, rest[j].key) {
        assert rest[j] in multiset(rest);
        assert rest[j] == m || rest[j] in ms[1..];
      }
    }
  }

  lemma {:induction false} SortByKeySorts(ms: seq<Member>)
    ensures SortedByKey(SortByKey(ms))
    ensures multiset(SortByKey(ms)) == multiset(ms)
  {
    if ms != [] {
      SortByKeySorts(ms[1..]);
      InsertByKeySorted(ms[0], SortByKey(ms[1..]));
      assert ms == [ms[0]] + ms[1..];
    }
  }

  lemma SameMultisetSameMembers(s: seq<Member>, t: seq<Member>)
    requires multiset(s) == multiset(t)
    ensures |s| == |t|
    ensures forall m :: m in s <==> m in t
    ensures DistinctKeys(s) ==> DistinctKeys(t)
  {
    assert |multiset(s)| == |s| && |multiset(t)| == |t|;
    forall m ensures m in s <==> m in t {
      assert m in s <==> m in multiset(s);
    }
    if DistinctKeys(s) {
      forall i, j | 0 <= i < j < |t| ensures t[i].key != t[j].key {
        if t[i].key == t[j].key {
          assert t[i] in t && t[j] in t;
          var p :| 0 <= p < |s| && s[p] == t[i];
          var q :| 0 <= q < |s| && s[q] == t[j];
          assert p == q;
          TwoCopies(t, i, j);
          OneCopy(s, p);
          assert false;
        }
      }
    }
  }

  lemma TwoCopies(t: seq<Member>, i: nat, j: nat)
    requires i < j < |t| && t[i] == t[j]
    ensures multiset(t)[t[i]] >= 2
  {
    assert t == t[..i] + [t[i]] + t[i + 1..j] + [t[j]] + t[j + 1..];
  }

  lemma OneCopy(s: seq<Member>, p: nat)
    requires p < |s| && DistinctKeys(s)
    ensures multiset(s)[s[p]] == 1
  {
    assert s == s[..p] + [s[p]] + s[p + 1..];
    assert s[p] !in s[..p] && s[p] !in s[p + 1..];
  }

  /** Two key-sorted lists with distinct keys and the same members are the same list. */
  lemma {:induction false} SortedListIsUnique(s: seq<Member>, t: seq<Member>)
    requires SortedByKey(s) && SortedByKey(t) && DistinctKeys(s) && DistinctKeys(t)
    requires |s| == |t| && forall m :: m in s <==> m in t
    ensures s == t
  {
    if s != [] {
      assert s[0] in s;
      assert t[0] in t;
      var p :| 0 <= p < |t| && t[p] == s[0];
      var q :| 0 <= q < |s| && s[q] == t[0];
      if p != 0 {
        assert KeyLe(t[0].key, t[p].key);
        assert q != 0;
        assert KeyLe(s[0].key, s[q].key);
        KeyLeAntisymmetric(s[0].key, t[0].key);
        assert false;
      }
      assert s == [s[0]] + s[1..] && t == [t[0]] + t[1..];
      forall m ensures m in s[1..] <==> m in t[1..] {
        if m in s[1..] { assert m in s; assert m != s[0]; assert m in t; }
        if m in t[1..] { assert m in t; assert m != t[0]; assert m in s; }
      }
      SortedListIsUnique(s[1..], t[1..]);
    }
  }

  /** A sorted list of distinct keys is its own sort. */
  lemma SortedListIsItsSort(ms: seq<Member>, sorted: seq<Member>)
    requires SortedByKey(sorted) && multiset(sorted) == multiset(ms) && DistinctKeys(ms)
    ensures SortByKey(ms) == sorted
  {
    SortByKeySorts(ms);
    SameMultisetSameMembers(ms, sorted);
    SameMultisetSameMembers(ms, SortByKey(ms));
    SortedListIsUnique(SortByKey(ms), sorted);
  }
}

/** Keys of the counter maps and the order in which their locks are taken. */
module AccessKeys {

  /** A request method; `AsStr` is its wire name. */
  datatype Method = Known(wire: string) | Unknown(name: string) {
    function AsStr(): (name: string)
      ensures this == Known(name) || this == Unknown(name)
    {
      match this
      case Known(w) => w
      case Unknown(n) => n
    }
  }

  /** The special entry that stands for every method without one of its own. */
  const ALL := Unknown("ALL")

  datatype AccessKey = MethodKey(pubkey: string, verb: Method) | QuotaKey(pubkey: string)

  datatype Ordering = Less | Equal | Greater {
    function Reverse(): Ordering {
      match this
      case Less => Greater
      case Equal => Equal
      case Greater => Less
    }
  }

  function CompareStrings(a: string, b: string): Ordering {
    if a == "" && b == "" then Equal
    else if a == "" then Less
    else if b == "" then Greater
    else if a[0] < b[0] then Less
    else if a[0] > b[0] then Greater
    else CompareStrings(a[1..], b[1..])
  }

  function CompareAccessKeys(a: AccessKey, b: AccessKey): Ordering {
    match (a, b)
    case (MethodKey(ap, am), MethodKey(bp, bm)) =>
      if CompareStrings(ap, bp) == Equal then CompareStrings(am.AsStr(), bm.AsStr()) else CompareStrings(ap, bp)
    case (MethodKey(_, _), QuotaKey(_)) => Less
    case (QuotaKey(_), MethodKey(_, _)) => Greater
    case (QuotaKey(ap), QuotaKey(bp)) => CompareStrings(ap, bp)
  }

  predicate Before(a: AccessKey, b: AccessKey) {
    CompareAccessKeys(a, b) == Less
  }

  /** Method names tell these two keys' methods apart. */
  predicate NamesDiffer(a: AccessKey, b: AccessKey) {
    a.MethodKey? && b.MethodKey? && a.verb != b.verb ==> a.verb.AsStr() != b.verb.AsStr()
  }

  lemma {:induction false} StringsEqual(a: string, b: string)
    ensures CompareStrings(a, b) == Equal <==> a == b
    decreases |a|
  {
    if a == "" || b == "" {
    } else {
      StringsEqual(a[1..], b[1..]);
      assert a == [a[0]] + a[1..] && b == [b[0]] + b[1..];
    }
  }

  lemma {:induction false} StringsReverse(a: string, b: string)
    ensures CompareStrings(b, a) == CompareStrings(a, b).Reverse()
    decreases |a|
  {
    if a == "" || b == "" {
    } else {
      StringsReverse(a[1..], b[1..]);
    }
  }

  lemma {:induction false} StringsTransitive(a: string, b: string, c: string)
    requires CompareStrings(a, b) == Less && CompareStrings(b, c) == Less
    ensures CompareStrings(a, c) == Less
    decreases |a|
  {
    if a == "" || b == "" || c == "" || a[0] != b[0] || b[0] != c[0] {
    } else {
      StringsTransitive(a[1..], b[1..], c[1..]);
    }
  }

  /** `a` and `b` agree up to their `k`-th character, and there `a` ends or has the
      smaller character. */
  predicate PrecedesAt(a: string, b: string, k: nat) {
    k <= |a| && k < |b| && a[..k] == b[..k] && (k == |a| || a[k] < b[k])
  }

  /** Lexicographically before: decided by the first difference. */
  ghost predicate Precedes(a: string, b: string) {
    exists k: nat :: PrecedesAt(a, b, k)
  }

  lemma PrecedesTail(a: string, b: string)
    requires a != "" && b != "" && a[0] == b[0]
    ensures Precedes(a, b) <==> Precedes(a[1..], b[1..])
  {
    if k: nat :| PrecedesAt(a, b, k) {
      assert a[1..][..k - 1] == a[..k][1..] && b[1..][..k - 1] == b[..k][1..];
      assert PrecedesAt(a[1..], b[1..], k - 1);
    }
    if k: nat :| PrecedesAt(a[1..], b[1..], k) {
      assert a[..k + 1] == [a[0]] + a[1..][..k] && b[..k + 1] == [b[0]] + b[1..][..k];
      assert PrecedesAt(a, b, k + 1);
    }
  }

  lemma {:induction false} LessMeans(a: string, b: string)
    ensures CompareStrings(a, b) == Less <==> Precedes(a, b)
    decreases |a|
  {
    if a == "" || b == "" || a[0] != b[0] {
      assert PrecedesAt(a, b, 0) <==> CompareStrings(a, b) == Less;
      forall k: nat | PrecedesAt(a, b, k)
        ensures k == 0
      {
      }
    } else {
      PrecedesTail(a, b);
      LessMeans(a[1..], b[1..]);
    }
  }

  /** Strings are compared by their first difference. */
  lemma CompareMeans(a: string, b: string)
    ensures CompareStrings(a, b) == Less <==> Precedes(a, b)
    ensures CompareStrings(a, b) == Greater <==> Precedes(b, a)
    ensures CompareStrings(a, b) == Equal <==> a == b
  {
    LessMeans(a, b);
    LessMeans(b, a);
    StringsReverse(a, b);
    StringsEqual(a, b);
  }

  /** Method keys come before quota keys; keys of one kind go by pubkey, then by the
      name of the method. */
  lemma BeforeMeans(a: AccessKey, b: AccessKey)
    ensures a.MethodKey? && b.QuotaKey? ==> Before(a, b)
    ensures a.QuotaKey? && b.MethodKey? ==> !Before(a, b)
    ensures a.QuotaKey? && b.QuotaKey? ==> (Before(a, b) <==> Precedes(a.pubkey, b.pubkey))
    ensures a.MethodKey? && b.MethodKey? ==>
              (Before(a, b) <==>
               Precedes(a.pubkey, b.pubkey) ||
               (a.pubkey == b.pubkey && Precedes(a.verb.AsStr(), b.verb.AsStr())))
  {
    CompareMeans(a.pubkey, b.pubkey);
    if a.MethodKey? && b.MethodKey? {
      CompareMeans(a.verb.AsStr(), b.verb.AsStr());
      if a.pubkey == b.pubkey {
        StringsEqual(a.pubkey, b.pubkey);
      }
    }
  }

  /** Keys compare equal exactly when they are equal or differ only in two
      methods that share one name. */
  lemma KeysEqual(a: AccessKey, b: AccessKey)
    ensures NamesDiffer(a, b) ==> (CompareAccessKeys(a, b) == Equal <==> a == b)
    ensures CompareAccessKeys(a, b) == Equal <==>
            a == b || (a.MethodKey? && b.MethodKey? && a.pubkey == b.pubkey && a.verb.AsStr() == b.verb.AsStr())
  {
    StringsEqual(a.pubkey, b.pubkey);
    if a.MethodKey? && b.MethodKey? {
      StringsEqual(a.verb.AsStr(), b.verb.AsStr());
    }
  }

  lemma KeysReverse(a: AccessKey, b: AccessKey)
    ensures CompareAccessKeys(b, a) == CompareAccessKeys(a, b).Reverse()
  {
    StringsReverse(a.pubkey, b.pubkey);
    StringsEqual(a.pubkey, b.pubkey);
    StringsEqual(b.pubkey, a.pubkey);
    if a.MethodKey? && b.MethodKey? {
      StringsReverse(a.verb.AsStr(), b.verb.AsStr());
    }
  }

  lemma KeysTransitive(a: AccessKey, b: AccessKey, c: AccessKey)
    requires Before(a, b) && Before(b, c)
    ensures Before(a, c)
  {
    StringsEqual(a.pubkey, b.pubkey);
    StringsEqual(b.pubkey, c.pubkey);
    if CompareStrings(a.pubkey, b.pubkey) == Less && CompareStrings(b.pubkey, c.pubkey) == Less {
      StringsTransitive(a.pubkey, b.pubkey, c.pubkey);
    } else if a.MethodKey? && b.MethodKey? && c.MethodKey? && a.pubkey == b.pubkey == c.pubkey {
      StringsTransitive(a.verb.AsStr(), b.verb.AsStr(), c.verb.AsStr());
    }
  }

  /** The comparison is a strict total order on keys whose method names differ. */
  lemma StrictTotalOrder(a: AccessKey, b: AccessKey, c: AccessKey)
    ensures !Before(a, a)
    ensures Before(a, b) && Before(b, c) ==> Before(a, c)
    ensures NamesDiffer(a, b) && a != b ==> (Before(a, b) <==> !Before(b, a))
  {
    KeysEqual(a, a);
    KeysEqual(a, b);
    KeysReverse(a, b);
    if Before(a, b) && Before(b, c) {
      KeysTransitive(a, b, c);
    }
  }

  // ---------- the lock order of a list of updates ----------

  function InsertByKey<T>(us: seq<T>, u: T, key: T -> AccessKey): seq<T> {
    if us == [] || !Before(key(u), key(us[|us| - 1])) then us + [u]
    else InsertByKey(us[..|us| - 1], u, key) + [us[|us| - 1]]
  }

  /** The stable sort by key. */
  function SortByKey<T>(us: seq<T>, key: T -> AccessKey): seq<T> {
    if us == [] then [] else InsertByKey(SortByKey(us[..|us| - 1], key), us[|us| - 1], key)
  }

  /** A method key followed by a quota key is in lock order already. */
  lemma AtMostTwoSorted<T>(fetched: seq<T>, quota: seq<T>, key: T -> AccessKey)
    requires |fetched| <= 1 && |quota| <= 1
    requires forall u :: u in fetched ==> key(u).MethodKey?
    requires forall u :: u in quota ==> key(u).QuotaKey?
    ensures SortByKey(fetched + quota, key) == fetched + quota
    ensures forall i, j :: 0 <= i < j < |fetched + quota| ==>
              Before(key((fetched + quota)[i]), key((fetched + quota)[j]))
  {
    var us := fetched + quota;
    if |us| == 1 {
      assert us[..0] == [];
    } else if |us| == 2 {
      assert us[0] in fetched && us[1] in quota;
      assert us[..1] == [us[0]] && us[..1][..0] == [];
      assert SortByKey(us[..1], key) == [us[0]];
      KeysReverse(key(us[0]), key(us[1]));
    }
  }
}

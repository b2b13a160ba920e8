/** The order in which a range scan of the world state visits keys.

    The ledger returns keys in ascending order of their UTF-8 bytes. UTF-8 byte
    order coincides with the order of code points, so the model compares keys
    character by character. */
module KeyOrder {

  /** `a` sorts strictly before `b`: either `a` is a proper prefix of `b`, or the
      first character where they differ is smaller in `a`. */
  predicate Below(a: string, b: string)
  {
    |b| > 0 && (|a| == 0 || a[0] < b[0] || (a[0] == b[0] && Below(a[1..], b[1..])))
  }

  lemma {:induction false} BelowIrreflexive(a: string)
    ensures !Below(a, a)
  {
    if |a| > 0 {
      BelowIrreflexive(a[1..]);
    }
  }

  lemma {:induction false} BelowTransitive(a: string, b: string, c: string)
    requires Below(a, b) && Below(b, c)
    ensures Below(a, c)
  {
    if |a| > 0 && a[0] == b[0] && b[0] == c[0] {
      BelowTransitive(a[1..], b[1..], c[1..]);
    }
  }

  lemma {:induction false} BelowTotal(a: string, b: string)
    requires a != b
    ensures Below(a, b) || Below(b, a)
  {
    if |a| > 0 && |b| > 0 && a[0] == b[0] {
      assert a == [a[0]] + a[1..] && b == [b[0]] + b[1..];
      BelowTotal(a[1..], b[1..]);
    }
  }

  lemma BelowAsymmetric(a: string, b: string)
    requires Below(a, b)
    ensures !Below(b, a)
  {
    if Below(b, a) {
      BelowTransitive(a, b, a);
      BelowIrreflexive(a);
    }
  }

  /** `m` is the key of `ks` that a scan visits first. */
  predicate IsFirst(m: string, ks: set<string>)
  {
    m in ks && forall k :: k in ks && k != m ==> Below(m, k)
  }

  /** Every non-empty finite set of keys has a first key. */
  lemma {:induction false} FirstExists(ks: set<string>)
    requires ks != {}
    ensures exists m :: IsFirst(m, ks)
    decreases ks
  {
    var x :| x in ks;
    var rest := ks - {x};
    if rest == {} {
      forall k | k in ks
        ensures k == x
      {
        assert k !in rest;
      }
      assert IsFirst(x, ks);
    } else {
      FirstExists(rest);
      var m :| IsFirst(m, rest);
      if Below(x, m) {
        forall k | k in ks && k != x
          ensures Below(x, k)
        {
          if k != m {
            BelowTransitive(x, m, k);
          }
        }
        assert IsFirst(x, ks);
      } else {
        BelowTotal(x, m);
        assert IsFirst(m, ks);
      }
    }
  }

  /** The keys of `s` strictly increase, so no key occurs twice. */
  ghost predicate Ascending(s: seq<string>)
  {
    forall i, j :: 0 <= i < j < |s| ==> Below(s[i], s[j])
  }

  /** The keys of `ks` in the order a full range scan visits them. */
  ghost function ScanOrder(ks: set<string>): (r: seq<string>)
    ensures Ascending(r)
    ensures forall k :: k in r <==> k in ks
    ensures |r| == |ks|
    decreases ks
  {
    if ks == {} then []
    else
      FirstExists(ks);
      var m :| IsFirst(m, ks);
      [m] + ScanOrder(ks - {m})
  }

  lemma AscendingTail(s: seq<string>)
    requires Ascending(s) && s != []
    ensures Ascending(s[1..])
    ensures forall k :: k in s[1..] <==> k in s && k != s[0]
  {
    forall k | k in s[1..]
      ensures k != s[0]
    {
      var i :| 0 <= i < |s[1..]| && s[1..][i] == k;
      assert Below(s[0], s[i + 1]);
      BelowIrreflexive(k);
    }
  }

  /** A set of keys has only one ascending enumeration: the scan order is
      determined by the keys alone, not by the order they were written in. */
  lemma {:induction false} AscendingUnique(s: seq<string>, t: seq<string>)
    requires Ascending(s) && Ascending(t)
    requires forall k :: k in s <==> k in t
    ensures s == t
  {
    if s != [] {
      assert s[0] in t;
    }
    if t != [] {
      assert t[0] in s;
    }
    if s != [] && t != [] {
      if s[0] != t[0] {
        assert t[0] in s;
        var i :| 0 <= i < |s| && s[i] == t[0];
        assert s[0] in t;
        var j :| 0 <= j < |t| && t[j] == s[0];
        assert Below(s[0], t[0]) && Below(t[0], s[0]);
        BelowAsymmetric(s[0], t[0]);
      }
      AscendingTail(s);
      AscendingTail(t);
      AscendingUnique(s[1..], t[1..]);
      assert s == [s[0]] + s[1..] && t == [t[0]] + t[1..];
    }
  }

  /** A sequence whose neighbours are in order is ascending. */
  lemma {:induction false} AscendingFromNeighbours(s: seq<string>)
    requires forall i :: 0 < i < |s| ==> Below(s[i - 1], s[i])
    ensures Ascending(s)
  {
    if |s| > 1 {
      var init := s[..|s| - 1];
      AscendingFromNeighbours(init);
      forall i, j | 0 <= i < j < |s|
        ensures Below(s[i], s[j])
      {
        if j == |s| - 1 && i < j - 1 {
          assert Below(init[i], init[j - 1]);
          BelowTransitive(s[i], s[j - 1], s[j]);
        } else if j < |s| - 1 {
          assert Below(init[i], init[j]);
        }
      }
    }
  }
}

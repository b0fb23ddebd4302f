/** Small vocabulary shared by the models: optional values and sequences without repetition. */
module Common {

  datatype Option<+T> = None | Some(value: T)

  ghost predicate Distinct<T>(s: seq<T>) {
    forall i, j :: 0 <= i < j < |s| ==> s[i] != s[j]
  }

  /** `s` with the first occurrence of `x` taken out. */
  ghost function Without<T>(s: seq<T>, x: T): seq<T> {
    if s == [] then []
    else if s[0] == x then s[1..]
    else [s[0]] + Without(s[1..], x)
  }

  lemma {:induction false} WithoutSplit<T>(s: seq<T>, i: nat)
    requires i < |s| && Distinct(s)
    ensures Without(s, s[i]) == s[..i] + s[i + 1..]
  {
    if i == 0 {
      assert s[..0] + s[1..] == s[1..];
    } else {
      WithoutSplit(s[1..], i - 1);
      assert s[..i] + s[i + 1..] == [s[0]] + (s[1..][..i - 1] + s[1..][i..]);
    }
  }

  lemma WithoutAt<T>(s: seq<T>, i: nat)
    requires i < |s| && Distinct(s)
    ensures var w := Without(s, s[i]);
            && |w| == |s| - 1
            && Distinct(w)
            && (forall j {:trigger w[j]} :: 0 <= j < |w| ==> w[j] == (if j < i then s[j] else s[j + 1]) && w[j] != s[i])
  {
    WithoutSplit(s, i);
  }

  /** Taking an element out of a repetition-free sequence removes it and nothing else. */
  lemma WithoutMembers<T>(s: seq<T>, x: T)
    requires Distinct(s) && x in s
    ensures Distinct(Without(s, x)) && |Without(s, x)| == |s| - 1
    ensures forall y :: y in Without(s, x) ==> y in s && y != x
    ensures forall y :: y in s && y != x ==> y in Without(s, x)
  {
    var i :| 0 <= i < |s| && s[i] == x;
    WithoutAt(s, i);
    var w := Without(s, x);
    forall y | y in w
      ensures y in s && y != x
    {
      var j :| 0 <= j < |w| && w[j] == y;
    }
    forall y | y in s && y != x
      ensures y in w
    {
      var j :| 0 <= j < |s| && s[j] == y;
      assert y == w[if j < i then j else j - 1];
    }
  }

  lemma PrependMembers<T>(s: seq<T>, x: T)
    requires Distinct(s) && x !in s
    ensures Distinct([x] + s)
    ensures forall y :: y in [x] + s ==> y == x || y in s
    ensures forall y :: y in s ==> y in [x] + s
  {
    var w := [x] + s;
    assert forall i :: 0 < i < |w| ==> w[i] == s[i - 1] && w[i] in s;
    assert w[0] == x;
  }

  /** Later positions carry earlier dates. */
  ghost predicate Descending<K>(s: seq<K>, date: map<K, int>) {
    && (forall k :: k in s ==> k in date)
    && (forall i, j :: 0 <= i < j < |s| ==> date[s[j]] < date[s[i]])
  }

  lemma DescendingSame<K>(s: seq<K>, date: map<K, int>, date': map<K, int>)
    requires Descending(s, date)
    requires forall k :: k in s ==> k in date' && date'[k] == date[k]
    ensures Descending(s, date')
  {
  }

  lemma DescendingWithout<K>(s: seq<K>, x: K, date: map<K, int>, date': map<K, int>)
    requires Distinct(s) && x in s && Descending(s, date)
    requires forall k :: k in s && k != x ==> k in date' && date'[k] == date[k]
    ensures Descending(Without(s, x), date')
  {
    var i :| 0 <= i < |s| && s[i] == x;
    WithoutAt(s, i);
    WithoutMembers(s, x);
  }

  lemma DescendingPrepend<K>(s: seq<K>, x: K, date: map<K, int>, date': map<K, int>)
    requires Descending(s, date) && x in date'
    requires forall k :: k in s ==> k in date' && date'[k] == date[k] && date[k] < date'[x]
    ensures Descending([x] + s, date')
  {
    var w := [x] + s;
    assert forall i :: 0 < i < |w| ==> w[i] == s[i - 1] && w[i] in s;
  }
}

/** The categorical encoder used on the houseboat dataset
    (scikit-learn's `LabelEncoder`): fitting keeps the distinct labels of a
    column in ascending string order, and a label's code is its position in
    that list. Strings compare as Python compares them, code point by code
    point, a proper prefix first. */
module LabelEncoding {
  import opened Wrappers

  /** Python's `a < b` on strings. */
  predicate LabelLess(a: string, b: string)
    decreases |a|
  {
    |b| > 0 &&
    (|a| == 0 || a[0] < b[0] || (a[0] == b[0] && LabelLess(a[1..], b[1..])))
  }

  /** A proper prefix sorts before the longer label. */
  lemma {:induction false} LabelLessPrefix(a: string, b: string)
    requires |a| < |b| && a == b[..|a|]
    ensures LabelLess(a, b)
    decreases |a|
  {
    if |a| > 0 {
      assert a[0] == b[0];
      assert a[1..] == b[1..][..|a| - 1];
      LabelLessPrefix(a[1..], b[1..]);
    }
  }

  lemma {:induction false} LabelLessIrreflexive(a: string)
    ensures !LabelLess(a, a)
    decreases |a|
  {
    if |a| > 0 {
      LabelLessIrreflexive(a[1..]);
    }
  }

  lemma {:induction false} LabelLessTransitive(a: string, b: string, c: string)
    requires LabelLess(a, b) && LabelLess(b, c)
    ensures LabelLess(a, c)
    decreases |a|
  {
    if |a| > 0 && a[0] == b[0] && b[0] == c[0] {
      LabelLessTransitive(a[1..], b[1..], c[1..]);
    }
  }

  lemma {:induction false} LabelLessTotal(a: string, b: string)
    requires a != b
    ensures LabelLess(a, b) || LabelLess(b, a)
    decreases |a|
  {
    if |a| > 0 && |b| > 0 && a[0] == b[0] {
      assert a == [a[0]] + a[1..] && b == [b[0]] + b[1..];
      LabelLessTotal(a[1..], b[1..]);
    }
  }

  /** Ascending with no repeats, as `LabelEncoder.classes_` is. */
  predicate StrictlySorted(s: seq<string>) {
    forall i, j :: 0 <= i < j < |s| ==> LabelLess(s[i], s[j])
  }

  /** A fitted encoder: its `classes_`. */
  datatype LabelEncoder = LabelEncoder(classes: seq<string>)

  /** Adds `x` to a strictly sorted list of labels, keeping it strictly sorted. */
  function Insert(x: string, s: seq<string>): (r: seq<string>)
    requires StrictlySorted(s)
    ensures StrictlySorted(r)
    ensures forall l :: l in r <==> l == x || l in s
  {
    if s == [] then [x]
    else if x == s[0] then s
    else if LabelLess(x, s[0]) then
      forall j | 0 < j < |s| ensures LabelLess(x, s[j]) {
        LabelLessTransitive(x, s[0], s[j]);
      }
      [x] + s
    else
      LabelLessTotal(x, s[0]);
      var rest := Insert(x, s[1..]);
      assert forall l :: l in rest ==> LabelLess(s[0], l);
      [s[0]] + rest
  }

  /** `LabelEncoder.fit`: the distinct labels of the column, in ascending order. */
  function Fit(labels: seq<string>): (e: LabelEncoder)
    ensures StrictlySorted(e.classes)
    ensures forall l :: l in e.classes <==> l in labels
  {
    if labels == [] then LabelEncoder([])
    else LabelEncoder(Insert(labels[0], Fit(labels[1..]).classes))
  }

  /** Position of `l` in `classes`, if it is there. */
  function IndexOf(classes: seq<string>, l: string): (r: Option<nat>)
    ensures r.Some? <==> l in classes
    ensures r.Some? ==> r.value < |classes| && classes[r.value] == l
  {
    if classes == [] then None
    else if classes[0] == l then Some(0)
    else match IndexOf(classes[1..], l)
      case None => None
      case Some(i) => Some(i + 1)
  }

  /** `LabelEncoder.transform` of one label; `None` where scikit-learn raises
      `ValueError` for a label it never saw. */
  function Transform(e: LabelEncoder, l: string): (r: Option<nat>)
    ensures r.Some? <==> l in e.classes
    ensures r.Some? ==> r.value < |e.classes| && e.classes[r.value] == l
  {
    IndexOf(e.classes, l)
  }

  /** `LabelEncoder.inverse_transform` of one code. */
  function InverseTransform(e: LabelEncoder, code: nat): string
    requires code < |e.classes|
  {
    e.classes[code]
  }

  /** A strictly sorted list has no repeats, so each label has exactly one
      code: encoding a class gives back its own position. */
  lemma {:induction false} TransformOfClass(e: LabelEncoder, k: nat)
    requires StrictlySorted(e.classes) && k < |e.classes|
    ensures Transform(e, InverseTransform(e, k)) == Some(k)
  {
    var i := Transform(e, e.classes[k]).value;
    var found, own := e.classes[i], e.classes[k];
    assert i == k || LabelLess(found, own) || LabelLess(own, found);
    LabelLessIrreflexive(own);
  }

  /** Two known labels get the same code exactly when they are the same label. */
  lemma SameCodeSameLabel(e: LabelEncoder, a: string, b: string)
    requires a in e.classes && b in e.classes
    ensures Transform(e, a) == Transform(e, b) <==> a == b
  {
  }
}

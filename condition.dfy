/**
 * The condition classifier of the `/detect` endpoint: the verdict on the
 * tomato ("Kondisi Tomat") and its remark ("Keterangan"), derived from the
 * number of accepted boxes and the set of their labels.
 */
module Condition {
  import opened Wrappers
  import opened Vocabulary

  datatype Condition = Healthy | NotHealthy | NotATomato
  {
    /** The value of "Kondisi Tomat" in the response and the stored record. */
    function Name(): string
    {
      match this
      case Healthy => "Healthy"
      case NotHealthy => "Not Healthy"
      case NotATomato => "Bukan Gambar Tomat"
    }
  }

  /** The three verdict strings are different, so the string names the verdict. */
  lemma NameInjective(a: Condition, b: Condition)
    ensures a.Name() == b.Name() <==> a == b
  {
  }

  datatype Verdict = Verdict(condition: Condition, remark: string)

  const HealthyRemark: string := "Tomat Anda sedang tidak dalam Kondisi terjangkit penyakit"
  const NotHealthyPrefix: string := "Tomat Anda saat ini terdeteksi terkena penyakit "
  const NotATomatoRemark: string := "Aplikasi ini hanya digunakan untuk mengecek kondisi tomat"

  /**
   * `order` visits every element of `s` exactly once. Python iterates a set
   * in an order fixed by string hashes, which the program does not control;
   * the classifier is given that order as an input.
   */
  predicate IsEnumeration(order: seq<string>, s: set<string>)
  {
    NoDuplicates(order) && (forall x :: x in order ==> x in s) && (forall x :: x in s ==> x in order)
  }

  /** `[disease for disease in order if disease != 'Healthy']`. */
  function NonHealthy(order: seq<string>): (names: seq<string>)
    ensures forall x :: x in names <==> x in order && x != HealthyLabel
    ensures NoDuplicates(order) ==> NoDuplicates(names)
  {
    if order == [] then []
    else if order[0] != HealthyLabel then
      NoDuplicatesTail(order);
      [order[0]] + NonHealthy(order[1..])
    else
      NoDuplicatesTail(order);
      NonHealthy(order[1..])
  }

  /** `', '.join(names)`. */
  function Join(names: seq<string>): string
  {
    if |names| == 0 then ""
    else if |names| == 1 then names[0]
    else names[0] + ", " + Join(names[1..])
  }

  /** Python's `s.split(',')`: the pieces between commas, at least one. */
  function Split(s: string): (parts: seq<string>)
    ensures |parts| >= 1
    ensures forall p :: p in parts ==> ',' !in p
  {
    if s == [] then [""]
    else
      var rest := Split(s[1..]);
      if s[0] == ',' then [""] + rest
      else [[s[0]] + rest[0]] + rest[1..]
  }

  /** Drops one leading space. */
  function DropSpace(s: string): string
  {
    if s != [] && s[0] == ' ' then s[1..] else s
  }

  function DropSpaces(parts: seq<string>): seq<string>
  {
    if parts == [] then [] else [DropSpace(parts[0])] + DropSpaces(parts[1..])
  }

  /** Reads a `', '`-joined list back. */
  function ParseNames(s: string): seq<string>
  {
    var parts := Split(s);
    [parts[0]] + DropSpaces(parts[1..])
  }

  /** The list of diseases a "Not Healthy" remark names, or `None` for any other text. */
  function ParseRemark(remark: string): Option<seq<string>>
  {
    if |NotHealthyPrefix| <= |remark| && remark[..|NotHealthyPrefix|] == NotHealthyPrefix
    then Some(ParseNames(remark[|NotHealthyPrefix|..]))
    else None
  }

  /** The source's test `'Healthy' in s and len(s) == 1` says that `s` is `{'Healthy'}`. */
  lemma SingletonTest(s: set<string>)
    ensures (HealthyLabel in s && |s| == 1) <==> s == {HealthyLabel}
  {
    if HealthyLabel in s && |s| == 1 {
      assert |s - {HealthyLabel}| == 0;
    }
  }

  /**
   * The if/elif/else of the classifier, over `num_boxes_detected`, the set
   * `detected_diseases` and the order in which Python iterates that set.
   */
  function Classify(count: nat, diseases: set<string>, iteration: seq<string>): (v: Verdict)
    requires IsEnumeration(iteration, diseases)
    ensures v.condition == NotATomato <==> count == 0
    ensures v.condition == Healthy <==> count > 0 && diseases == {HealthyLabel}
    ensures v.condition == Healthy ==> v.remark == HealthyRemark
    ensures v.condition == NotATomato ==> v.remark == NotATomatoRemark
  {
    SingletonTest(diseases);
    if count > 0 && HealthyLabel in diseases && |diseases| == 1 then
      Verdict(Healthy, HealthyRemark)
    else if count > 0 then
      Verdict(NotHealthy, NotHealthyPrefix + Join(NonHealthy(iteration)))
    else
      Verdict(NotATomato, NotATomatoRemark)
  }

  /**
   * With the invariant of the detection loop (a positive count exactly when
   * the set is non-empty): "Healthy" iff every label is `'Healthy'`, "Not
   * Healthy" iff some label is not.
   */
  lemma ClassifyByLabels(count: nat, diseases: set<string>, iteration: seq<string>)
    requires IsEnumeration(iteration, diseases)
    requires count > 0 <==> diseases != {}
    ensures Classify(count, diseases, iteration).condition == Healthy
        <==> diseases != {} && forall l :: l in diseases ==> l == HealthyLabel
    ensures Classify(count, diseases, iteration).condition == NotHealthy
        <==> exists l :: l in diseases && l != HealthyLabel
  {
    if diseases != {} && forall l :: l in diseases ==> l == HealthyLabel {
      var l :| l in diseases;
      assert diseases == {HealthyLabel};
    }
  }

  lemma {:induction false} SplitNoComma(x: string)
    requires ',' !in x
    ensures Split(x) == [x]
  {
    if x != [] {
      SplitNoComma(x[1..]);
      assert [x[0]] + x[1..] == x;
    }
  }

  lemma {:induction false} SplitAfterComma(x: string, y: string)
    requires ',' !in x
    ensures Split(x + "," + y) == [x] + Split(y)
  {
    if x == [] {
      assert x + "," + y == [','] + y;
      assert (x + "," + y)[1..] == y;
    } else {
      SplitAfterComma(x[1..], y);
      assert (x + "," + y)[1..] == x[1..] + "," + y;
      assert [x[0]] + x[1..] == x;
    }
  }

  lemma SplitAfterSpace(y: string)
    ensures Split(" " + y) == [" " + Split(y)[0]] + Split(y)[1..]
  {
    assert (" " + y)[1..] == y;
  }

  /** Splitting a joined list of comma-free names gives the names back. */
  lemma {:induction false} ParseJoin(names: seq<string>)
    requires |names| > 0
    requires forall n :: n in names ==> ',' !in n
    ensures ParseNames(Join(names)) == names
  {
    if |names| == 1 {
      SplitNoComma(names[0]);
      assert [names[0]] == names;
    } else {
      var rest := names[1..];
      var j := Join(rest);
      ParseJoin(rest);
      assert names[0] + ", " + j == names[0] + "," + (" " + j);
      SplitAfterComma(names[0], " " + j);
      SplitAfterSpace(j);
      var parts := Split(Join(names));
      assert parts == [names[0]] + ([" " + Split(j)[0]] + Split(j)[1..]);
      assert parts[1..] == [" " + Split(j)[0]] + Split(j)[1..];
      assert DropSpace(" " + Split(j)[0]) == Split(j)[0];
      assert DropSpaces(parts[1..]) == [Split(j)[0]] + DropSpaces(Split(j)[1..]);
      assert [names[0]] + rest == names;
    }
  }

  /**
   * A "Not Healthy" remark is the fixed prefix and a list that names each
   * detected label other than `'Healthy'` exactly once, and never `'Healthy'`;
   * the list is never empty.
   */
  lemma {:induction false} RemarkNamesEachDiseaseOnce(count: nat, diseases: set<string>, iteration: seq<string>)
    requires IsEnumeration(iteration, diseases)
    requires diseases != {}
    requires forall l :: l in diseases ==> ',' !in l
    requires Classify(count, diseases, iteration).condition == NotHealthy
    ensures ParseRemark(Classify(count, diseases, iteration).remark) == Some(NonHealthy(iteration))
    ensures Classify(count, diseases, iteration).remark == NotHealthyPrefix + Join(NonHealthy(iteration))
    ensures IsEnumeration(NonHealthy(iteration), diseases - {HealthyLabel})
    ensures NonHealthy(iteration) != []
  {
    var names := NonHealthy(iteration);
    SingletonTest(diseases);
    var l :| l in diseases && l != HealthyLabel;
    assert l in names;
    ParseJoin(names);
    var remark := NotHealthyPrefix + Join(names);
    assert remark[..|NotHealthyPrefix|] == NotHealthyPrefix;
    assert remark[|NotHealthyPrefix|..] == Join(names);
  }

  /** Two enumerations of one set name the same diseases, whichever order Python picks. */
  lemma {:induction false} EnumerationsAgree(a: seq<string>, b: seq<string>, s: set<string>)
    requires IsEnumeration(a, s) && IsEnumeration(b, s)
    ensures multiset(NonHealthy(a)) == multiset(NonHealthy(b))
  {
    NoDuplicatesMultiset(NonHealthy(a));
    NoDuplicatesMultiset(NonHealthy(b));
    assert forall x :: x in NonHealthy(a) <==> x in NonHealthy(b);
    assert multiset(NonHealthy(a)) == multiset(NonHealthy(b)) by {
      forall x ensures multiset(NonHealthy(a))[x] == multiset(NonHealthy(b))[x] {
        assert x in NonHealthy(a) <==> x in multiset(NonHealthy(a));
        assert x in NonHealthy(b) <==> x in multiset(NonHealthy(b));
      }
    }
  }

  /** Dropping the head keeps a sequence duplicate-free, and the head occurs nowhere else. */
  lemma NoDuplicatesTail(s: seq<string>)
    requires s != []
    ensures NoDuplicates(s) ==> NoDuplicates(s[1..]) && s[0] !in s[1..]
  {
    var t := s[1..];
    if NoDuplicates(s) {
      forall i, j | 0 <= i < j < |t| ensures t[i] != t[j] {
        assert t[i] == s[i + 1] && t[j] == s[j + 1];
      }
    }
  }

  /** In a sequence without duplicates, every element occurs once. */
  lemma {:induction false} NoDuplicatesMultiset(s: seq<string>)
    requires NoDuplicates(s)
    ensures forall x :: multiset(s)[x] == if x in s then 1 else 0
  {
    if s != [] {
      var t := s[1..];
      NoDuplicatesTail(s);
      NoDuplicatesMultiset(t);
      assert s == [s[0]] + t;
      assert multiset(s) == multiset{s[0]} + multiset(t);
    }
  }

  /** A duplicate-free sequence has as many elements as distinct values. */
  lemma {:induction false} DistinctCount(names: seq<string>)
    requires NoDuplicates(names)
    ensures |set y | y in names| == |names|
  {
    if names != [] {
      var rest := names[1..];
      NoDuplicatesTail(names);
      DistinctCount(rest);
      assert names == [names[0]] + rest;
      assert (set y | y in names) == {names[0]} + (set y | y in rest);
    }
  }

  /** A duplicate-free sequence whose only element is `x` is `[x]`. */
  lemma OnlyElement(names: seq<string>, x: string)
    requires NoDuplicates(names) && x in names
    requires forall y :: y in names ==> y == x
    ensures names == [x]
  {
    DistinctCount(names);
    assert (set y | y in names) == {x};
    assert names[0] in names;
  }

  /**
   * Python's iteration over the set `detected_diseases` in the list
   * comprehension: each element once, in an order the program does not choose.
   */
  method IterateSet(s: set<string>) returns (order: seq<string>)
    ensures IsEnumeration(order, s)
  {
    order := [];
    var rest := s;
    while rest != {}
      invariant rest <= s
      invariant NoDuplicates(order)
      invariant forall x :: x in order ==> x in s && x !in rest
      invariant forall x :: x in s ==> x in order || x in rest
      decreases rest
    {
      var x :| x in rest;
      order := order + [x];
      rest := rest - {x};
    }
  }
}

/** How much two patches touch the same places: intersection over union of the source files and of the
    functions they modify. */
module Localization {
  import opened Prelude

  const SOURCE_EXTENSIONS: set<string> := {".c", ".h", ".cpp", ".cc", ".cxx", ".hpp", ".hh", ".hxx", ".S", ".s", ".asm"}

  predicate EndsWith(s: string, suffix: string) {
    |suffix| <= |s| && s[|s| - |suffix|..] == suffix
  }

  predicate IsSource(file: string) {
    exists ext :: ext in SOURCE_EXTENSIONS && EndsWith(file, ext)
  }

  /** A source file is a name that ends in one of the eleven extensions. */
  lemma SourceNames(file: string)
    ensures IsSource(file) <==>
            exists stem: string, ext: string :: file == stem + ext &&
              ext in [".c", ".h", ".cpp", ".cc", ".cxx", ".hpp", ".hh", ".hxx", ".S", ".s", ".asm"]
  {
    var all := [".c", ".h", ".cpp", ".cc", ".cxx", ".hpp", ".hh", ".hxx", ".S", ".s", ".asm"];
    assert forall ext :: ext in all <==> ext in SOURCE_EXTENSIONS;
    if IsSource(file) {
      var ext :| ext in SOURCE_EXTENSIONS && EndsWith(file, ext);
      assert file == file[..|file| - |ext|] + ext && ext in all;
    }
    if stem: string, ext: string :| file == stem + ext && ext in all {
      assert file[|file| - |ext|..] == ext;
      assert EndsWith(file, ext);
    }
  }

  function FilterSourceFiles(files: set<string>): set<string> {
    set f | f in files && IsSource(f)
  }

  /** A list as read from the database; a missing one counts as empty. */
  function SetOf(list: Option<seq<string>>): set<string> {
    match list
    case None => {}
    case Some(s) => set f | f in s
  }

  function IoU<T(==)>(a: set<T>, b: set<T>): real {
    if |a + b| > 0 then |a * b| as real / |a + b| as real else 0.0
  }

  datatype Analysis = Analysis(success: bool, files: Option<seq<string>>, functions: Option<seq<string>>)

  datatype Score = Score(common: nat, total: nat, value: real)

  datatype Evaluation = Invalid | Scored(files: Score, functions: Score)

  /** The value is the share of the common places among all. */
  function ScoreOf(a: set<string>, b: set<string>): (s: Score)
    ensures s.common <= s.total && s.value * s.total as real == s.common as real
  {
    SubsetCard(a * b, a + b);
    Score(|a * b|, |a + b|, IoU(a, b))
  }

  function Evaluate(agent: Analysis, dev: Analysis): Evaluation {
    if !agent.success || !dev.success then Invalid
    else
      Scored(ScoreOf(FilterSourceFiles(SetOf(agent.files)), FilterSourceFiles(SetOf(dev.files))),
             ScoreOf(SetOf(agent.functions), SetOf(dev.functions)))
  }

  // ---------------------------------------------------------------- what the score depends on

  /** Filtering first or last makes no difference, and filtering again none either. */
  lemma FilterCommutes(a: set<string>, b: set<string>)
    ensures FilterSourceFiles(a * b) == FilterSourceFiles(a) * FilterSourceFiles(b)
    ensures FilterSourceFiles(a + b) == FilterSourceFiles(a) + FilterSourceFiles(b)
    ensures FilterSourceFiles(FilterSourceFiles(a)) == FilterSourceFiles(a)
  {
  }

  /** The lists list the same source files and the same functions, in any order and any number of times. */
  ghost predicate SamePlaces(p: Analysis, q: Analysis) {
    && p.success == q.success
    && (forall f :: IsSource(f) ==> (f in SetOf(p.files) <==> f in SetOf(q.files)))
    && (forall f :: f in SetOf(p.functions) <==> f in SetOf(q.functions))
  }

  lemma OnlyPlacesCount(agent: Analysis, dev: Analysis, agent': Analysis, dev': Analysis)
    requires SamePlaces(agent, agent') && SamePlaces(dev, dev')
    ensures Evaluate(agent, dev) == Evaluate(agent', dev')
    ensures Evaluate(dev, agent) == Evaluate(agent', dev')
  {
    assert FilterSourceFiles(SetOf(agent.files)) == FilterSourceFiles(SetOf(agent'.files));
    assert FilterSourceFiles(SetOf(dev.files)) == FilterSourceFiles(SetOf(dev'.files));
    assert SetOf(agent.functions) == SetOf(agent'.functions);
    assert SetOf(dev.functions) == SetOf(dev'.functions);
    ScoreIsSymmetric(FilterSourceFiles(SetOf(agent.files)), FilterSourceFiles(SetOf(dev.files)));
    ScoreIsSymmetric(SetOf(agent.functions), SetOf(dev.functions));
  }

  lemma ScoreIsSymmetric(a: set<string>, b: set<string>)
    ensures ScoreOf(a, b) == ScoreOf(b, a)
  {
    assert a * b == b * a && a + b == b + a;
  }

  // ---------------------------------------------------------------- the range

  lemma DivLe(a: real, b: real, c: real, d: real)
    requires b > 0.0 && d > 0.0 && a * d <= c * b
    ensures a / b <= c / d
  {
    var x, y := a / b, c / d;
    assert x * b == a && y * d == c;
    assert x * (b * d) == a * d && y * (b * d) == c * b;
    if x > y { Scale(y, x, b * d); }
  }

  lemma Scale(x: real, y: real, k: real)
    requires x < y && k > 0.0
    ensures x * k < y * k
  {
  }

  lemma UnitRatio(c: real, t: real)
    requires 0.0 <= c <= t && t > 0.0
    ensures 0.0 <= c / t <= 1.0
    ensures c / t == 0.0 <==> c == 0.0
    ensures c / t == 1.0 <==> c == t
  {
    var q := c / t;
    assert q * t == c;
    if q < 0.0 { Scale(q, 0.0, t); }
    if q > 1.0 { Scale(1.0, q, t); }
  }

  /** Between 0 and 1; 0 exactly for sets without a common element, 1 exactly for equal nonempty ones. */
  lemma IoURange<T>(a: set<T>, b: set<T>)
    ensures 0.0 <= IoU(a, b) <= 1.0
    ensures IoU(a, b) == 0.0 <==> a !! b
    ensures IoU(a, b) == 1.0 <==> a == b && a != {}
  {
    if |a + b| > 0 {
      var common, total := |a * b| as real, |a + b| as real;
      SubsetCard(a * b, a + b);
      UnitRatio(common, total);
      if a * b == a + b { assert a == b; }
    } else {
      assert a + b == {};
      assert a == {} == b;
    }
  }

  // ---------------------------------------------------------------- the triangle inequality

  function Distance<T(==)>(a: set<T>, b: set<T>): real { 1.0 - IoU(a, b) }

  function Difference<T(==)>(a: set<T>, b: set<T>): set<T> { (a - b) + (b - a) }

  lemma DifferenceCard<T>(a: set<T>, b: set<T>)
    ensures |Difference(a, b)| + |a * b| == |a + b|
  {
    assert Difference(a, b) + a * b == a + b && Difference(a, b) !! a * b;
  }

  lemma DistanceIsRatio<T>(a: set<T>, b: set<T>)
    requires |a + b| > 0
    ensures Distance(a, b) == |Difference(a, b)| as real / |a + b| as real
  {
    DifferenceCard(a, b);
    SumOver(|Difference(a, b)| as real, |a * b| as real, |a + b| as real);
  }

  lemma SumOver(s: real, t: real, n: real)
    requires n > 0.0
    ensures s / n + t / n == (s + t) / n
    ensures s + t == n ==> s / n == 1.0 - t / n
  {
  }

  /** Elements of `b` outside `a` and `c` count twice on the way over `b`. */
  lemma DifferenceTriangle<T>(a: set<T>, b: set<T>, c: set<T>)
    ensures |Difference(a, c)| + 2 * |b - (a + c)| <= |Difference(a, b)| + |Difference(b, c)|
  {
    var p, q, x := Difference(a, b), Difference(b, c), b - (a + c);
    SubsetCard(Difference(a, c) + x, p + q);
    SubsetCard(x, p * q);
    assert Difference(a, c) !! x;
  }

  lemma RatioGrows(s: real, u: real, x: real)
    requires 0.0 <= s <= u && u > 0.0 && x >= 0.0
    ensures s / u <= (s + x) / (u + x)
  {
    assert s * x <= u * x;
    assert s * (u + x) == s * u + s * x && (s + x) * u == s * u + x * u;
    DivLe(s, u, s + x, u + x);
  }

  lemma RatioShrinks(s: real, u: real, n: real)
    requires 0.0 <= s && 0.0 < u <= n
    ensures s / n <= s / u
  {
    assert s * u <= s * n;
    DivLe(s, n, s, u);
  }

  lemma RatioMonotone(s: real, t: real, n: real)
    requires s <= t && n > 0.0
    ensures s / n <= t / n
  {
    assert s * n <= t * n;
    DivLe(s, n, t, n);
  }

  /** One minus the score obeys the triangle inequality, although the score of two empty sets is 0. */
  lemma DistanceTriangle<T>(a: set<T>, b: set<T>, c: set<T>)
    ensures Distance(a, c) <= Distance(a, b) + Distance(b, c)
  {
    IoURange(a, b);
    IoURange(b, c);
    IoURange(a, c);
    if a + b == {} || b + c == {} {
      assert Distance(a, b) == 1.0 || Distance(b, c) == 1.0;
    } else if a + c == {} {
      assert a !! b && b !! c;
    } else {
      NonemptyTriangle(a, b, c);
    }
  }

  lemma NonemptyTriangle<T>(a: set<T>, b: set<T>, c: set<T>)
    requires a + b != {} && b + c != {} && a + c != {}
    ensures Distance(a, c) <= Distance(a, b) + Distance(b, c)
  {
    DistanceIsRatio(a, b);
    DistanceIsRatio(b, c);
    DistanceIsRatio(a, c);
    DifferenceTriangle(a, b, c);
    DifferenceCard(a, c);
    var all, out := a + b + c, b - (a + c);
    assert all == (a + c) + out && (a + c) !! out;
    SubsetCard(a + b, all);
    SubsetCard(b + c, all);
    Chain(|Difference(a, c)| as real, |a + c| as real, |Difference(a, b)| as real, |a + b| as real,
          |Difference(b, c)| as real, |b + c| as real, |out| as real);
  }

  lemma Chain(ac: real, u: real, ab: real, v: real, bc: real, w: real, x: real)
    requires 0.0 <= ac <= u && u > 0.0 && 0.0 <= x && ac + x + x <= ab + bc
    requires 0.0 <= ab && 0.0 < v <= u + x && 0.0 <= bc && 0.0 < w <= u + x
    ensures ac / u <= ab / v + bc / w
  {
    RatioGrows(ac, u, x);
    RatioMonotone(ac + x, ab + bc, u + x);
    SumOver(ab, bc, u + x);
    RatioShrinks(ab, v, u + x);
    RatioShrinks(bc, w, u + x);
  }

  // ---------------------------------------------------------------- the evaluation as a whole

  ghost predicate SharesSource(p: Analysis, q: Analysis) {
    exists f :: f in SetOf(p.files) && f in SetOf(q.files) && IsSource(f)
  }

  /** There are scores exactly if both analyses succeeded, and they are extreme exactly for patches that touch
      nothing in common, or all the same and something. */
  lemma EvaluationExtremes(p: Analysis, q: Analysis)
    ensures Evaluate(p, q).Invalid? <==> !(p.success && q.success)
    ensures var e := Evaluate(p, q);
            p.success && q.success ==>
            && (e.files.value == 0.0 <==> !SharesSource(p, q))
            && (e.functions.value == 0.0 <==> SetOf(p.functions) !! SetOf(q.functions))
            && (e.functions.value == 1.0 <==> SetOf(p.functions) == SetOf(q.functions) != {})
            && (e.files.value == 1.0 <==>
                  SharesSource(p, q) && forall f :: IsSource(f) ==> (f in SetOf(p.files) <==> f in SetOf(q.files)))
  {
    var a, b := FilterSourceFiles(SetOf(p.files)), FilterSourceFiles(SetOf(q.files));
    IoURange(a, b);
    IoURange(SetOf(p.functions), SetOf(q.functions));
    assert SharesSource(p, q) <==> a * b != {} by {
      if SharesSource(p, q) {
        var f :| f in SetOf(p.files) && f in SetOf(q.files) && IsSource(f);
        assert f in a * b;
      }
      if a * b != {} {
        var f :| f in a * b;
        assert f in SetOf(p.files) && f in SetOf(q.files) && IsSource(f);
      }
    }
    assert a == b <==> forall f :: IsSource(f) ==> (f in SetOf(p.files) <==> f in SetOf(q.files)) by {
      if a == b {
        forall f | IsSource(f) ensures f in SetOf(p.files) <==> f in SetOf(q.files) {
          assert f in a <==> f in b;
        }
      }
    }
  }

  lemma EvaluationTriangle(p: Analysis, q: Analysis, r: Analysis)
    requires p.success && q.success && r.success
    ensures 1.0 - Evaluate(p, r).files.value <= (1.0 - Evaluate(p, q).files.value) + (1.0 - Evaluate(q, r).files.value)
    ensures 1.0 - Evaluate(p, r).functions.value <= (1.0 - Evaluate(p, q).functions.value)
              + (1.0 - Evaluate(q, r).functions.value)
  {
    DistanceTriangle(FilterSourceFiles(SetOf(p.files)), FilterSourceFiles(SetOf(q.files)),
        FilterSourceFiles(SetOf(r.files)));
    DistanceTriangle(SetOf(p.functions), SetOf(q.functions), SetOf(r.functions));
  }
}

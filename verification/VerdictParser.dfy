/** Reading a judge's reply: tagged sections found by leftmost, shortest search, and the tally of votes. */
module VerdictParser {
  import opened Prelude
  import Text

  // ---------------------------------------------------------------- searching

  predicate At(text: string, pat: string, i: nat) {
    i + |pat| <= |text| && forall k :: 0 <= k < |pat| ==> text[i + k] == pat[k]
  }

  ghost predicate Contains(text: string, pat: string) {
    exists i: nat :: At(text, pat, i)
  }

  /** The first place from `from` on where `pat` occurs. */
  function Find(text: string, pat: string, from: nat): (r: Option<nat>)
    ensures r.Some? ==> from <= r.value <= |text| - |pat|
    decreases |text| - from
  {
    if from + |pat| > |text| then None
    else if At(text, pat, from) then Some(from)
    else if from == |text| then None
    else Find(text, pat, from + 1)
  }

  lemma {:induction false} FindMeans(text: string, pat: string, from: nat)
    ensures Find(text, pat, from).Some? ==> At(text, pat, Find(text, pat, from).value)
    ensures forall k :: from <= k && (Find(text, pat, from).Some? ==> k < Find(text, pat, from).value) ==>
              !At(text, pat, k)
    decreases |text| - from
  {
    if from + |pat| <= |text| && !At(text, pat, from) && from < |text| {
      FindMeans(text, pat, from + 1);
    }
  }

  function Extract(text: string, open: string, close: string): Option<string> {
    var i := Find(text, open, 0);
    if i.None? then None
    else
      var j := Find(text, close, i.value + |open|);
      if j.None? then None else Some(text[i.value + |open|..j.value])
  }

  /** The text holds `open`, then anything, then `close`. */
  predicate IsMatch(text: string, open: string, close: string, i: nat, j: nat) {
    i + |open| <= j && At(text, open, i) && At(text, close, j)
  }

  /** The match that a search for the pattern open(.*?)close reports: the leftmost, then the shortest. */
  ghost predicate IsSearchResult(text: string, open: string, close: string, i: nat, j: nat) {
    && IsMatch(text, open, close, i, j)
    && forall k: nat, l: nat :: IsMatch(text, open, close, k, l) ==> i < k || (i == k && j <= l)
  }

  /** Looking for the opening tag first and then for the closing one finds what the pattern search finds. */
  lemma ExtractIsSearch(text: string, open: string, close: string)
    ensures Extract(text, open, close).None? <==> forall i: nat, j: nat :: !IsMatch(text, open, close, i, j)
    ensures Extract(text, open, close).Some? ==>
              exists i: nat, j: nat :: IsSearchResult(text, open, close, i, j)
                  && Extract(text, open, close).value == text[i + |open|..j]
  {
    var i := Find(text, open, 0);
    FindMeans(text, open, 0);
    if i.Some? {
      FindMeans(text, close, i.value + |open|);
      var j := Find(text, close, i.value + |open|);
      if j.Some? {
        assert IsMatch(text, open, close, i.value, j.value);
        assert IsSearchResult(text, open, close, i.value, j.value);
      }
    }
  }

  ghost predicate NoneBefore(text: string, pat: string, from: nat, to: nat) {
    forall k :: from <= k < to ==> !At(text, pat, k)
  }

  lemma FindIs(text: string, pat: string, from: nat, i: nat)
    requires from <= i && At(text, pat, i) && NoneBefore(text, pat, from, i)
    ensures Find(text, pat, from) == Some(i)
  {
    FindMeans(text, pat, from);
  }

  lemma FindInPrefix(text: string, pat: string, from: nat, more: string)
    requires Find(text, pat, from).Some?
    ensures Find(text + more, pat, from) == Find(text, pat, from)
  {
    var i := Find(text, pat, from).value;
    FindMeans(text, pat, from);
    forall k | from <= k < i ensures !At(text + more, pat, k) {
      assert !At(text, pat, k);
    }
    FindIs(text + more, pat, from, i);
  }

  lemma ExtractAt(text: string, open: string, close: string, i: nat, j: nat)
    requires Find(text, open, 0) == Some(i) && Find(text, close, i + |open|) == Some(j)
    ensures Extract(text, open, close) == Some(text[i + |open|..j])
  {
  }

  /** Text after a complete section does not change what is extracted. */
  lemma AppendKeepsExtract(text: string, open: string, close: string, more: string)
    requires Extract(text, open, close).Some?
    ensures Extract(text + more, open, close) == Extract(text, open, close)
  {
    var i := Find(text, open, 0).value;
    var j := Find(text, close, i + |open|).value;
    FindInPrefix(text, open, 0, more);
    FindInPrefix(text, close, i + |open|, more);
    ExtractAt(text + more, open, close, i, j);
    assert (text + more)[i + |open|..j] == text[i + |open|..j];
  }

  // ---------------------------------------------------------------- the reply

  datatype Answer = Equivalent | Discrepant | NoEvaluation | NoVerdict | InvalidVerdict(text: string)

  datatype Reply = Reply(answer: Answer, reasoning: Option<string>, developer: Option<string>, student: Option<string>)

  function Lower(c: char): char {
    if 'A' <= c <= 'Z' then (c as int - 'A' as int + 'a' as int) as char else c
  }

  function LowerAll(s: string): string {
    seq(|s|, i requires 0 <= i < |s| => Lower(s[i]))
  }

  function Stripped(s: Option<string>): Option<string> {
    match s case None => None case Some(t) => Some(Text.Strip(t))
  }

  function Classify(verdict: string): Answer {
    var word := LowerAll(Text.Strip(verdict));
    if word == "equivalent" then Equivalent
    else if word == "discrepant" then Discrepant
    else InvalidVerdict(word)
  }

  /** But for white space around it, the text is the word, with each letter small or capital. */
  ghost predicate Spells(text: string, word: string, capitals: string) {
    exists i: nat :: SpellsAt(text, word, capitals, i)
  }

  predicate SpellsAt(text: string, word: string, capitals: string, i: nat)
  {
    && |word| == |capitals| && Text.IsTrimmed(text, i, i + |word|)
    && forall k :: 0 <= k < |word| ==> text[i + k] == word[k] || text[i + k] == capitals[k]
  }

  predicate AreLetters(word: string, capitals: string) {
    && |word| == |capitals| > 0
    && forall k :: 0 <= k < |word| ==> 'a' <= word[k] <= 'z' && capitals[k] as int + 32 == word[k] as int
  }

  lemma LowerIs(text: string, word: string, capitals: string)
    requires AreLetters(word, capitals)
    ensures LowerAll(text) == word <==>
            |text| == |word| && forall k :: 0 <= k < |word| ==> text[k] == word[k] || text[k] == capitals[k]
  {
    if |text| == |word| {
      forall k | 0 <= k < |word| ensures Lower(text[k]) == word[k] <==> text[k] == word[k] || text[k] == capitals[k] {
      }
      if LowerAll(text) == word {
        forall k | 0 <= k < |word| ensures text[k] == word[k] || text[k] == capitals[k] {
          assert LowerAll(text)[k] == Lower(text[k]);
        }
      }
    }
  }

  lemma LowerSpells(text: string, word: string, capitals: string)
    requires AreLetters(word, capitals)
    ensures LowerAll(Text.Strip(text)) == word <==> Spells(text, word, capitals)
  {
    var i, j := Text.TrimExists(text);
    Text.StripTrims(text, i, j);
    LowerIs(text[i..j], word, capitals);
    if LowerAll(Text.Strip(text)) == word {
      forall k | 0 <= k < |word| ensures text[i + k] == word[k] || text[i + k] == capitals[k] {
        assert text[i..j][k] == text[i + k];
      }
      assert SpellsAt(text, word, capitals, i);
    }
    if x: nat :| SpellsAt(text, word, capitals, x) {
      Text.StripTrims(text, x, x + |word|);
      LowerIs(text[x..x + |word|], word, capitals);
    }
  }

  /** Exactly which texts are one of the two verdicts. */
  lemma VerdictSpelling(text: string)
    ensures Classify(text) == Equivalent <==> Spells(text, "equivalent", "EQUIVALENT")
    ensures Classify(text) == Discrepant <==> Spells(text, "discrepant", "DISCREPANT")
  {
    LowerSpells(text, "equivalent", "EQUIVALENT");
    LowerSpells(text, "discrepant", "DISCREPANT");
  }

  function Open(tag: string): string { "<" + tag + ">" }

  function Close(tag: string): string { "</" + tag + ">" }

  /** The tags that the reply is asked to use. */
  lemma ReasoningTags()
    ensures Open(REASONING) == "<reasoning>" && Close(REASONING) == "</reasoning>"
  {
  }

  lemma EvaluationTags()
    ensures Open(EVALUATION) == "<evaluation>" && Close(EVALUATION) == "</evaluation>"
  {
  }

  lemma DeveloperTags()
    ensures Open(DEVELOPER) == "<developerPatchAnalysis>" && Close(DEVELOPER) == "</developerPatchAnalysis>"
  {
  }

  lemma StudentTags()
    ensures Open(STUDENT) == "<studentPatchAnalysis>" && Close(STUDENT) == "</studentPatchAnalysis>"
  {
  }

  lemma VerdictTags()
    ensures Open(VERDICT) == "<verdict>" && Close(VERDICT) == "</verdict>"
  {
  }

  const REASONING := "reasoning"
  const EVALUATION := "evaluation"
  const DEVELOPER := "developerPatchAnalysis"
  const STUDENT := "studentPatchAnalysis"
  const VERDICT := "verdict"

  function Section(text: string, tag: string): Option<string> {
    Extract(text, Open(tag), Close(tag))
  }

  function ParseEvaluation(content: string, reasoning: Option<string>): Reply {
    var verdict := Section(content, VERDICT);
    Reply(if verdict.None? then NoVerdict else Classify(verdict.value),
          reasoning, Stripped(Section(content, DEVELOPER)), Stripped(Section(content, STUDENT)))
  }

  function ParseVerdict(response: string): Reply {
    var content := Section(response, EVALUATION);
    if content.None? then Reply(NoEvaluation, None, None, None)
    else ParseEvaluation(content.value, Stripped(Section(response, REASONING)))
  }

  /** Nothing after the first evaluation block changes the answer or the analyses, nor the reasoning if
      there is one already. */
  lemma FirstEvaluationDecides(response: string, more: string)
    requires Section(response, EVALUATION).Some?
    ensures var before, after := ParseVerdict(response), ParseVerdict(response + more);
            && after.answer == before.answer && after.developer == before.developer && after.student == before.student
            && (before.reasoning.Some? ==> after == before)
  {
    AppendKeepsExtract(response, Open(EVALUATION), Close(EVALUATION), more);
    if Section(response, REASONING).Some? {
      AppendKeepsExtract(response, Open(REASONING), Close(REASONING), more);
    }
  }

  // ---------------------------------------------------------------- the format asked for

  function Block(tag: string, body: string): string {
    Open(tag) + "\n" + body + "\n" + Close(tag)
  }

  function EvaluationBody(developer: string, student: string, verdict: string): string {
    Block(DEVELOPER, developer) + "\n" + Block(STUDENT, student) + "\n" + Block(VERDICT, verdict)
  }

  function Render(reasoning: string, developer: string, student: string, verdict: string): string {
    "<reasoning>" + ("\n" + reasoning + "\n") + "</reasoning>" + "\n" + "\n" +
    "<evaluation>" + "\n" +
    "<developerPatchAnalysis>" + ("\n" + developer + "\n") + "</developerPatchAnalysis>" + "\n" +
    "<studentPatchAnalysis>" + ("\n" + student + "\n") + "</studentPatchAnalysis>" + "\n" +
    "<verdict>" + ("\n" + verdict + "\n") + "</verdict>" + "\n" +
    "</evaluation>"
  }

  lemma BlockIs(name: string, open: string, close: string, body: string)
    requires Open(name) == open && Close(name) == close
    ensures Block(name, body) == open + ("\n" + body + "\n") + close
  {
  }

  lemma RegroupReply(r: string, o: string, n: string, d1: string, d: string, d2: string,
                     u1: string, u: string, u2: string, v1: string, v: string, v2: string, c: string)
    ensures r + o + n + d1 + d + d2 + n + u1 + u + u2 + n + v1 + v + v2 + n + c ==
            r + (o + (n + ((d1 + d + d2) + n + (u1 + u + u2) + n + (v1 + v + v2)) + n) + c)
  {
    var ds, us, vs := d1 + d + d2, u1 + u + u2, v1 + v + v2;
    var x := r + o + n;
    assert x + d1 + d + d2 == x + ds;
    var y := x + ds + n;
    assert y + u1 + u + u2 == y + us;
    var z := y + us + n;
    assert z + v1 + v + v2 == z + vs;
    assert z + vs + n + c == r + (o + (n + (ds + n + us + n + vs) + n) + c);
  }

  lemma RenderIsBlocks(reasoning: string, developer: string, student: string, verdict: string)
    ensures Render(reasoning, developer, student, verdict) ==
            Block(REASONING, reasoning) + "\n" + "\n" + Block(EVALUATION, EvaluationBody(developer, student, verdict))
  {
    ReasoningTags();
    EvaluationTags();
    DeveloperTags();
    StudentTags();
    VerdictTags();
    BlockIs(REASONING, "<reasoning>", "</reasoning>", reasoning);
    BlockIs(EVALUATION, "<evaluation>", "</evaluation>", EvaluationBody(developer, student, verdict));
    BlockIs(DEVELOPER, "<developerPatchAnalysis>", "</developerPatchAnalysis>", developer);
    BlockIs(STUDENT, "<studentPatchAnalysis>", "</studentPatchAnalysis>", student);
    BlockIs(VERDICT, "<verdict>", "</verdict>", verdict);
    RegroupReply("<reasoning>" + ("\n" + reasoning + "\n") + "</reasoning>" + "\n" + "\n", "<evaluation>", "\n",
                 "<developerPatchAnalysis>", "\n" + developer + "\n", "</developerPatchAnalysis>",
                 "<studentPatchAnalysis>", "\n" + student + "\n", "</studentPatchAnalysis>",
                 "<verdict>", "\n" + verdict + "\n", "</verdict>", "</evaluation>");
  }

  /** What comes before a tag: nothing, or complete lines. */
  predicate IsLines(s: string) { s == [] || s[|s| - 1] == '\n' }

  /** A tag opens only at its start and holds no line break. */
  predicate IsTag(t: string) {
    |t| >= 2 && t[0] == '<' && t[|t| - 1] == '>' && forall k :: 0 < k < |t| - 1 ==>
        t[k] != '<' && t[k] != '>' && t[k] != '\n'
  }

  lemma OpensAtStart(text: string, tag: string, k: nat, p: nat)
    requires IsTag(tag) && At(text, tag, k) && k < p < k + |tag|
    ensures text[p] != '<'
  {
    assert text[k + (p - k)] == tag[p - k];
  }

  /** So it straddles neither the place where another tag starts nor a line break. */
  lemma NoTagAcross(a: string, b: string, tag: string, k: nat)
    requires IsTag(tag) && b != [] && b[0] == '<' && At(a + b, tag, k) && k < |a|
    ensures At(a, tag, k)
  {
    if |a| < k + |tag| {
      OpensAtStart(a + b, tag, k, |a|);
    }
  }

  lemma AtTagJoin(a: string, b: string, tag: string, k: nat)
    requires IsTag(tag) && b != [] && b[0] == '<' && At(a + b, tag, k)
    ensures if k < |a| then At(a, tag, k) else At(b, tag, k - |a|)
  {
    if k < |a| { NoTagAcross(a, b, tag, k); }
  }

  lemma ContainsBeforeTag(a: string, b: string, tag: string)
    requires IsTag(tag) && b != [] && b[0] == '<' && !Contains(a, tag) && !Contains(b, tag)
    ensures !Contains(a + b, tag)
  {
    if k: nat :| At(a + b, tag, k) {
      AtTagJoin(a, b, tag, k);
    }
  }

  lemma NoBreakInside(text: string, pat: string, k: nat, p: nat)
    requires At(text, pat, k) && '\n' !in pat && k <= p < k + |pat|
    ensures text[p] != '\n'
  {
    assert text[k + (p - k)] == pat[p - k];
  }

  lemma NoStraddle(a: string, b: string, pat: string, k: nat)
    requires IsLines(a) && '\n' !in pat && At(a + b, pat, k) && k < |a|
    ensures At(a, pat, k)
  {
    if |a| < k + |pat| {
      NoBreakInside(a + b, pat, k, |a| - 1);
    }
  }

  lemma AtJoin(a: string, b: string, pat: string, k: nat)
    requires IsLines(a) && '\n' !in pat && At(a + b, pat, k)
    ensures if k < |a| then At(a, pat, k) else At(b, pat, k - |a|)
  {
    if k < |a| { NoStraddle(a, b, pat, k); }
  }

  lemma ContainsJoin(a: string, b: string, pat: string)
    requires IsLines(a) && '\n' !in pat && !Contains(a, pat) && !Contains(b, pat)
    ensures !Contains(a + b, pat)
  {
    if k: nat :| At(a + b, pat, k) {
      AtJoin(a, b, pat, k);
    }
  }

  lemma FirstOpen(a: string, open: string, tail: string)
    requires IsTag(open) && !Contains(a, open)
    ensures Find(a + open + tail, open, 0) == Some(|a|)
  {
    var text := a + open + tail;
    assert text == a + (open + tail);
    forall k | 0 <= k < |a| ensures !At(text, open, k) {
      if At(text, open, k) { NoTagAcross(a, open + tail, open, k); }
    }
    FindIs(text, open, 0, |a|);
  }

  lemma AtInside(body: string, pat: string, k: nat)
    requires '\n' !in pat && pat != [] && At("\n" + body + "\n", pat, k)
    ensures k > 0 && At(body, pat, k - 1)
  {
    var inner := "\n" + body + "\n";
    if k == 0 || k + |pat| == |inner| {
      NoBreakInside(inner, pat, k, if k == 0 then 0 else |inner| - 1);
    }
  }

  lemma ContainsLines(body: string, pat: string)
    requires '\n' !in pat && pat != [] && !Contains(body, pat)
    ensures !Contains("\n" + body + "\n", pat)
  {
    if k: nat :| At("\n" + body + "\n", pat, k) {
      AtInside(body, pat, k);
    }
  }

  lemma AtShift(a: string, b: string, pat: string, k: nat)
    requires |a| <= k && At(a + b, pat, k)
    ensures At(b, pat, k - |a|)
  {
    assert forall i :: 0 <= i < |b| ==> (a + b)[|a| + i] == b[i];
  }

  lemma NotInside(a: string, inner: string, tail: string, pat: string, k: nat)
    requires IsLines(inner) && '\n' !in pat && !Contains(inner, pat) && |a| <= k < |a| + |inner|
    ensures !At(a + (inner + tail), pat, k)
  {
    if At(a + (inner + tail), pat, k) {
      AtShift(a, inner + tail, pat, k);
      NoStraddle(inner, tail, pat, k - |a|);
    }
  }

  lemma AtMiddle(a: string, pat: string, b: string)
    ensures At(a + pat + b, pat, |a|)
  {
  }

  lemma RegroupTail(a: string, inner: string, close: string, b: string)
    ensures a + inner + close + b == a + (inner + (close + b))
  {
  }

  lemma CloseAt(a: string, inner: string, close: string, b: string)
    ensures At(a + (inner + (close + b)), close, |a| + |inner|)
  {
    RegroupTail(a, inner, close, b);
    AtMiddle(a + inner, close, b);
  }

  lemma NoneInside(a: string, inner: string, tail: string, pat: string)
    requires IsLines(inner) && '\n' !in pat && !Contains(inner, pat)
    ensures NoneBefore(a + (inner + tail), pat, |a|, |a| + |inner|)
  {
    forall k | |a| <= k < |a| + |inner| ensures !At(a + (inner + tail), pat, k) {
      NotInside(a, inner, tail, pat, k);
    }
  }

  lemma FirstClose(a: string, inner: string, close: string, b: string)
    requires IsLines(inner) && '\n' !in close && !Contains(inner, close)
    ensures Find(a + inner + close + b, close, |a|) == Some(|a| + |inner|)
  {
    NoneInside(a, inner, close + b, close);
    CloseAt(a, inner, close, b);
    FindIs(a + (inner + (close + b)), close, |a|, |a| + |inner|);
    RegroupTail(a, inner, close, b);
  }

  /** A section is what the search extracts, if nothing before it holds its opening tag nor its body the closing one. */
  lemma ExtractsSection(a: string, open: string, body: string, close: string, b: string)
    requires IsTag(open) && '\n' !in close && close != []
    requires !Contains(a, open) && !Contains(body, close)
    ensures Extract(a + open + ("\n" + body + "\n") + close + b, open, close) == Some("\n" + body + "\n")
  {
    var inner := "\n" + body + "\n";
    OpenFound(a, open, inner, close, b);
    ContainsLines(body, close);
    FirstClose(a + open, inner, close, b);
    MiddleOf(a, open, inner, close, b);
    ExtractAt(a + open + inner + close + b, open, close, |a|, |a| + |open| + |inner|);
  }

  lemma OpenFound(a: string, open: string, inner: string, close: string, b: string)
    requires IsTag(open) && !Contains(a, open)
    ensures Find(a + open + inner + close + b, open, 0) == Some(|a|)
  {
    FirstOpen(a, open, inner + close + b);
    assert a + open + inner + close + b == a + open + (inner + close + b);
  }

  lemma MiddleOf(a: string, open: string, inner: string, close: string, b: string)
    ensures (a + open + inner + close + b)[|a| + |open|..|a| + |open| + |inner|] == inner
  {
    var c := a + open;
    assert (c + inner + close + b)[|c|..|c| + |inner|] == inner;
  }

  // ---------------------------------------------------------------- the round trip

  /** A word of letters, so without the characters that tags are made of. */
  predicate IsPlain(name: string) {
    name != [] && forall k :: 0 <= k < |name| ==> 'A' <= name[k]
  }

  lemma TagsAreTags(name: string)
    requires IsPlain(name)
    ensures IsTag(Open(name)) && '\n' !in Open(name) && IsTag(Close(name)) && '\n' !in Close(name)
  {
    assert forall k :: 0 < k < |name| + 1 ==> Open(name)[k] == name[k - 1];
    assert forall k :: 1 < k < |name| + 2 ==> Close(name)[k] == name[k - 2];
  }

  lemma TagsDiffer(a: string, b: string)
    requires IsPlain(a) && IsPlain(b)
    ensures Open(a) != Close(b)
    ensures a != b ==> Open(a) != Open(b) && Close(a) != Close(b)
  {
    assert Open(a)[1] == a[0] && Close(b)[1] == '/';
    assert Open(a)[1..|a| + 1] == a && Open(b)[1..|b| + 1] == b;
    assert Close(a)[2..|a| + 2] == a && Close(b)[2..|b| + 2] == b;
  }

  lemma TagInTag(u: string, t: string, k: nat)
    requires IsTag(t) && IsTag(u) && At(u + "\n", t, k)
    ensures t == u
  {
    var line := u + "\n";
    assert line[k + 0] == '<' && line[k + (|t| - 1)] == '>';
    assert k == 0 && |t| == |u|;
    assert forall i :: 0 <= i < |t| ==> line[0 + i] == t[i];
  }

  lemma TagAvoidsTag(u: string, t: string)
    requires IsTag(t) && IsTag(u) && t != u
    ensures !Contains(u + "\n", t)
  {
    if k: nat :| At(u + "\n", t, k) {
      TagInTag(u, t, k);
    }
  }

  lemma BlockAvoids(name: string, body: string, t: string)
    requires IsPlain(name) && IsTag(t) && '\n' !in t && t != Open(name) && t != Close(name) && !Contains(body, t)
    ensures !Contains(Block(name, body) + "\n", t)
  {
    TagsAreTags(name);
    TagAvoidsTag(Open(name), t);
    TagAvoidsTag(Close(name), t);
    ContainsLines(body, t);
    var first, middle, last := Open(name) + "\n", body + "\n", Close(name) + "\n";
    assert !Contains(middle, t) by {
      assert "\n" + body + "\n" == "\n" + middle;
      ContainsTail("\n", middle, t);
    }
    ContainsJoin(middle, last, t);
    ContainsJoin(first, middle + last, t);
    assert Block(name, body) + "\n" == first + (middle + last);
  }

  lemma AtTail(a: string, b: string, pat: string, k: nat)
    ensures At(b, pat, k) ==> At(a + b, pat, |a| + k)
    ensures At(a, pat, k) ==> At(a + b, pat, k)
  {
    assert forall i :: 0 <= i < |b| ==> (a + b)[|a| + i] == b[i];
  }

  lemma ContainsTail(a: string, b: string, pat: string)
    requires !Contains(a + b, pat)
    ensures !Contains(a, pat) && !Contains(b, pat)
  {
    forall k: nat ensures !At(a, pat, k) && !At(b, pat, k) {
      AtTail(a, b, pat, k);
    }
  }

  lemma Names()
    ensures IsPlain(REASONING) && IsPlain(EVALUATION) && IsPlain(DEVELOPER) && IsPlain(STUDENT) && IsPlain(VERDICT)
  {
  }

  /** What the free texts must not hold: each only the tags that would end or preempt a section. */
  ghost predicate Avoids(before: string, reasoning: string, developer: string, student: string, verdict: string) {
    && !Contains(before, Open(REASONING)) && !Contains(before, Open(EVALUATION))
    && !Contains(reasoning, Close(REASONING)) && !Contains(reasoning, Open(EVALUATION))
    && !Contains(developer, Close(EVALUATION)) && !Contains(developer, Close(DEVELOPER))
    && !Contains(developer, Open(STUDENT)) && !Contains(developer, Open(VERDICT))
    && !Contains(student, Close(EVALUATION)) && !Contains(student, Close(STUDENT)) && !Contains(student, Open(VERDICT))
    && !Contains(verdict, Close(EVALUATION)) && !Contains(verdict, Close(VERDICT))
  }

  lemma SectionIs(a: string, name: string, body: string, b: string)
    requires IsPlain(name) && !Contains(a, Open(name)) && !Contains(body, Close(name))
    ensures Section(a + Block(name, body) + b, name) == Some("\n" + body + "\n")
  {
    TagsAreTags(name);
    ExtractsSection(a, Open(name), body, Close(name), b);
    RegroupSection(a, Open(name), body, Close(name), b);
  }

  lemma RegroupSection(a: string, open: string, body: string, close: string, b: string)
    ensures a + (open + "\n" + body + "\n" + close) + b == a + open + ("\n" + body + "\n") + close + b
  {
  }

  lemma StripLines(body: string)
    ensures Text.Strip("\n" + body + "\n") == Text.Strip(body)
  {
    Text.StripSpaceBefore(body + "\n", '\n');
    Text.StripSpaceAfter(body, '\n');
    assert "\n" + body + "\n" == ['\n'] + (body + ['\n']);
  }

  function Framed(before: string, reasoning: string, content: string, after: string): string {
    before + (Block(REASONING, reasoning) + "\n" + "\n" + Block(EVALUATION, content)) + after
  }

  lemma ReasoningSection(before: string, reasoning: string, content: string, after: string)
    requires !Contains(before, Open(REASONING)) && !Contains(reasoning, Close(REASONING))
    ensures Section(Framed(before, reasoning, content, after), REASONING) == Some("\n" + reasoning + "\n")
  {
    Names();
    var r, e := Block(REASONING, reasoning), Block(EVALUATION, content);
    SectionIs(before, REASONING, reasoning, "\n" + "\n" + e + after);
    RegroupFrame(before, r, e, after);
  }

  lemma EvaluationSection(before: string, reasoning: string, content: string, after: string)
    requires !Contains(before, Open(EVALUATION)) && !Contains(reasoning, Open(EVALUATION))
    requires !Contains(content, Close(EVALUATION))
    ensures Section(Framed(before, reasoning, content, after), EVALUATION) == Some("\n" + content + "\n")
  {
    Names();
    var r, e := Block(REASONING, reasoning), Block(EVALUATION, content);
    AfterBlock(before, REASONING, reasoning, EVALUATION);
    NothingInBreak(EVALUATION);
    TagsAreTags(EVALUATION);
    ContainsJoin(before + (r + "\n"), "\n", Open(EVALUATION));
    SectionIs(before + (r + "\n") + "\n", EVALUATION, content, after);
    RegroupFrame(before, r, e, after);
  }

  lemma RegroupFrame(before: string, r: string, e: string, after: string)
    ensures before + (r + "\n" + "\n" + e) + after == before + r + ("\n" + "\n" + e + after)
    ensures before + (r + "\n" + "\n" + e) + after == (before + (r + "\n") + "\n") + e + after
  {
  }

  lemma BodyAvoidsItsEnd(developer: string, student: string, verdict: string)
    requires !Contains(developer, Close(EVALUATION)) && !Contains(student, Close(EVALUATION))
              && !Contains(verdict, Close(EVALUATION))
    ensures !Contains(EvaluationBody(developer, student, verdict), Close(EVALUATION))
  {
    var end := Close(EVALUATION);
    Names();
    TagsAreTags(EVALUATION);
    TagsDiffer(DEVELOPER, EVALUATION);
    TagsDiffer(STUDENT, EVALUATION);
    TagsDiffer(VERDICT, EVALUATION);
    BlockAvoids(DEVELOPER, developer, end);
    BlockAvoids(STUDENT, student, end);
    BlockAvoids(VERDICT, verdict, end);
    var d, s, v := Block(DEVELOPER, developer) + "\n", Block(STUDENT, student) + "\n", Block(VERDICT, verdict) + "\n";
    ContainsJoin(d, s, end);
    ContainsJoin(d + s, v, end);
    assert d + s + v == EvaluationBody(developer, student, verdict) + "\n";
    ContainsTail(EvaluationBody(developer, student, verdict), "\n", end);
  }

  lemma Regroup(d: string, s: string, v: string)
    ensures "\n" + (d + "\n" + s + "\n" + v) + "\n" == "\n" + d + ("\n" + s + "\n" + v + "\n")
    ensures "\n" + (d + "\n" + s + "\n" + v) + "\n" == ("\n" + (d + "\n")) + s + ("\n" + v + "\n")
    ensures "\n" + (d + "\n" + s + "\n" + v) + "\n" == ("\n" + (d + "\n") + (s + "\n")) + v + "\n"
  {
  }

  function Content(developer: string, student: string, verdict: string): string {
    "\n" + EvaluationBody(developer, student, verdict) + "\n"
  }

  lemma DeveloperSection(developer: string, student: string, verdict: string)
    requires !Contains(developer, Close(DEVELOPER))
    ensures Section(Content(developer, student, verdict), DEVELOPER) == Some("\n" + developer + "\n")
  {
    var d, s, v := Block(DEVELOPER, developer), Block(STUDENT, student), Block(VERDICT, verdict);
    Names();
    NothingInBreak(DEVELOPER);
    SectionIs("\n", DEVELOPER, developer, "\n" + s + "\n" + v + "\n");
    Regroup(d, s, v);
  }

  lemma NothingInBreak(name: string)
    ensures !Contains("\n", Open(name))
  {
    assert |Open(name)| >= 2;
  }

  lemma StudentSection(developer: string, student: string, verdict: string)
    requires !Contains(developer, Open(STUDENT)) && !Contains(student, Close(STUDENT))
    ensures Section(Content(developer, student, verdict), STUDENT) == Some("\n" + student + "\n")
  {
    var d, s, v := Block(DEVELOPER, developer), Block(STUDENT, student), Block(VERDICT, verdict);
    Names();
    AfterBlock("\n", DEVELOPER, developer, STUDENT);
    SectionIs("\n" + (d + "\n"), STUDENT, student, "\n" + v + "\n");
    Regroup(d, s, v);
  }

  lemma VerdictSection(developer: string, student: string, verdict: string)
    requires !Contains(developer, Open(VERDICT)) && !Contains(student, Open(VERDICT))
              && !Contains(verdict, Close(VERDICT))
    ensures Section(Content(developer, student, verdict), VERDICT) == Some("\n" + verdict + "\n")
  {
    var d, s, v := Block(DEVELOPER, developer), Block(STUDENT, student), Block(VERDICT, verdict);
    Names();
    AfterBlock("\n", DEVELOPER, developer, VERDICT);
    AfterBlock("\n" + (d + "\n"), STUDENT, student, VERDICT);
    SectionIs("\n" + (d + "\n") + (s + "\n"), VERDICT, verdict, "\n");
    Regroup(d, s, v);
  }

  /** A block of another section does not hold the tag either. */
  lemma AfterBlock(a: string, name: string, body: string, other: string)
    requires IsPlain(name) && IsPlain(other) && name != other
    requires a == "\n" || !Contains(a, Open(other))
    requires !Contains(body, Open(other))
    ensures !Contains(a + (Block(name, body) + "\n"), Open(other))
  {
    TagsAreTags(other);
    TagsDiffer(other, name);
    NothingInBreak(other);
    BlockAvoids(name, body, Open(other));
    ContainsBeforeTag(a, Block(name, body) + "\n", Open(other));
  }

  /** A reply in the format asked for, with any text before and after it, reads back as what was put in. */
  lemma RenderedReplyParses(before: string, reasoning: string, developer: string, student: string, verdict: string,
                            after: string)
    requires Avoids(before, reasoning, developer, student, verdict)
    ensures ParseVerdict(before + Render(reasoning, developer, student, verdict) + after) ==
            Reply(Classify(verdict), Some(Text.Strip(reasoning)), Some(Text.Strip(developer)),
                Some(Text.Strip(student)))
  {
    var content := EvaluationBody(developer, student, verdict);
    RenderIsBlocks(reasoning, developer, student, verdict);
    BodyAvoidsItsEnd(developer, student, verdict);
    ReasoningSection(before, reasoning, content, after);
    EvaluationSection(before, reasoning, content, after);
    DeveloperSection(developer, student, verdict);
    StudentSection(developer, student, verdict);
    VerdictSection(developer, student, verdict);
    StripLines(reasoning);
    StripLines(developer);
    StripLines(student);
    StripLines(verdict);
  }

  // ---------------------------------------------------------------- the votes

  datatype Vote = Yes | No | Error

  /** What a reply counts as; `None` is a call that raised. */
  function VoteOf(response: Option<string>): Vote {
    if response.None? || response.value == "" then Error
    else
      match ParseVerdict(response.value).answer
      case Equivalent => Yes
      case Discrepant => No
      case _ => Error
  }

  /** The verdict section found in the evaluation section found in the reply says `word`. */
  ghost predicate Says(response: string, word: string, capitals: string) {
    exists i: nat, j: nat ::
      IsSearchResult(response, "<evaluation>", "</evaluation>", i, j)
      && VerdictIs(response[i + |"<evaluation>"|..j], word, capitals)
  }

  ghost predicate VerdictIs(content: string, word: string, capitals: string) {
    SectionSpells(content, "<verdict>", "</verdict>", word, capitals)
  }

  ghost predicate SectionSpells(text: string, open: string, close: string, word: string, capitals: string) {
    exists i: nat, j: nat :: IsSearchResult(text, open, close, i, j) && Spells(text[i + |open|..j], word, capitals)
  }

  lemma SearchIsExtract(text: string, open: string, close: string, i: nat, j: nat)
    requires IsSearchResult(text, open, close, i, j)
    ensures Extract(text, open, close) == Some(text[i + |open|..j])
  {
    ExtractIsSearch(text, open, close);
    assert IsMatch(text, open, close, i, j);
    var k: nat, l: nat :| IsSearchResult(text, open, close, k, l)
                          && Extract(text, open, close).value == text[k + |open|..l];
    OneSearchResult(text, open, close, i, j, k, l);
  }

  lemma OneSearchResult(text: string, open: string, close: string, i: nat, j: nat, k: nat, l: nat)
    requires IsSearchResult(text, open, close, i, j) && IsSearchResult(text, open, close, k, l)
    ensures i == k && j == l
  {
    assert IsMatch(text, open, close, i, j) && IsMatch(text, open, close, k, l);
  }

  lemma ExtractSpells(text: string, open: string, close: string, word: string, capitals: string)
    ensures SectionSpells(text, open, close, word, capitals) <==>
            Extract(text, open, close).Some? && Spells(Extract(text, open, close).value, word, capitals)
  {
    if SectionSpells(text, open, close, word, capitals) {
      var i: nat, j: nat :| IsSearchResult(text, open, close, i, j) && Spells(text[i + |open|..j], word, capitals);
      SearchIsExtract(text, open, close, i, j);
    }
    ExtractIsSearch(text, open, close);
  }

  lemma VerdictSays(content: string, word: string, capitals: string)
    ensures VerdictIs(content, word, capitals) <==>
            Section(content, VERDICT).Some? && Spells(Section(content, VERDICT).value, word, capitals)
  {
    VerdictTags();
    ExtractSpells(content, Open(VERDICT), Close(VERDICT), word, capitals);
  }

  lemma ReplySays(response: string, word: string, capitals: string)
    ensures Says(response, word, capitals) <==>
            Section(response, EVALUATION).Some? && VerdictIs(Section(response, EVALUATION).value, word, capitals)
  {
    EvaluationTags();
    var open, close := Open(EVALUATION), Close(EVALUATION);
    if Says(response, word, capitals) {
      var i: nat, j: nat :| IsSearchResult(response, open, close, i, j)
                            && VerdictIs(response[i + |open|..j], word, capitals);
      SearchIsExtract(response, open, close, i, j);
    }
    ExtractIsSearch(response, open, close);
  }

  /** A vote is yes or no exactly if there is a reply and the verdict it says, up to white space and
      case, is one of the two words; everything else is an error. */
  lemma VoteMeaning(response: Option<string>)
    ensures VoteOf(response) == Yes <==> response.Some? && Says(response.value, "equivalent", "EQUIVALENT")
    ensures VoteOf(response) == No <==> response.Some? && Says(response.value, "discrepant", "DISCREPANT")
  {
    if response.Some? {
      ReplySays(response.value, "equivalent", "EQUIVALENT");
      ReplySays(response.value, "discrepant", "DISCREPANT");
      var content := Section(response.value, EVALUATION);
      if content.Some? {
        VerdictSays(content.value, "equivalent", "EQUIVALENT");
        VerdictSays(content.value, "discrepant", "DISCREPANT");
        if Section(content.value, VERDICT).Some? { VerdictSpelling(Section(content.value, VERDICT).value); }
      }
    }
  }

  function VotesOf(responses: seq<Option<string>>): seq<Vote> {
    seq(|responses|, i requires 0 <= i < |responses| => VoteOf(responses[i]))
  }

  datatype Tally = Tally(yes: nat, no: nat, errors: nat)

  function TallyOf(votes: seq<Vote>): Tally {
    Tally(multiset(votes)[Yes], multiset(votes)[No], multiset(votes)[Error])
  }

  lemma {:induction false} TallyAddsUp(votes: seq<Vote>)
    ensures var t := TallyOf(votes);
            && t.yes + t.no + t.errors == |votes|
            && (t.errors == |votes| <==> forall i :: 0 <= i < |votes| ==> votes[i] == Error)
  {
    if votes != [] {
      var init, last := votes[..|votes| - 1], votes[|votes| - 1];
      TallyAddsUp(init);
      assert votes == init + [last];
      assert multiset(votes) == multiset(init) + multiset{last};
      assert TallyOf(votes).errors == TallyOf(init).errors + if last == Error then 1 else 0;
    }
  }

  method CountVotes(votes: seq<Vote>) returns (t: Tally)
    ensures t == TallyOf(votes)
  {
    t := Tally(0, 0, 0);
    for i := 0 to |votes|
      invariant t == TallyOf(votes[..i])
    {
      assert votes[..i + 1] == votes[..i] + [votes[i]];
      match votes[i]
      case Yes => t := t.(yes := t.yes + 1);
      case No => t := t.(no := t.no + 1);
      case Error => t := t.(errors := t.errors + 1);
    }
    assert votes[..|votes|] == votes;
  }

  method RunSingleVote(response: Option<string>) returns (vote: Vote)
    ensures vote == VoteOf(response)
    ensures vote == Yes <==> response.Some? && Says(response.value, "equivalent", "EQUIVALENT")
    ensures vote == No <==> response.Some? && Says(response.value, "discrepant", "DISCREPANT")
  {
    VoteMeaning(response);
    if response.None? || response.value == "" {
      return Error;
    }
    match ParseVerdict(response.value).answer
    case Equivalent => vote := Yes;
    case Discrepant => vote := No;
    case _ => vote := Error;
  }

  /** The three counts are those of the replies in each class, and they add up to the number of votes;
      the evaluation fails exactly if no reply could be read. */
  method RunVotes(responses: seq<Option<string>>) returns (t: Tally, success: bool)
    ensures t == TallyOf(VotesOf(responses))
    ensures t.yes + t.no + t.errors == |responses|
    ensures success <==> exists i :: 0 <= i < |responses| && VotesOf(responses)[i] != Error
  {
    var votes: seq<Vote> := [];
    for i := 0 to |responses|
      invariant |votes| == i && forall j :: 0 <= j < i ==> votes[j] == VotesOf(responses)[j]
    {
      var vote := RunSingleVote(responses[i]);
      votes := votes + [vote];
    }
    assert votes == VotesOf(responses);
    t := CountVotes(votes);
    TallyAddsUp(votes);
    success := t.errors != |responses|;
  }
}

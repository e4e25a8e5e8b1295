/** Step 3 of the scraper: finding the script element that declares the
    `findagrave` variable and isolating the object literal assigned to it.

    The script text is searched with the Python regular expression
        var\s+findagrave\s*=\s*({.*?});\s*var\s+htmlSnippets
    (DOTALL). Every whitespace run in it is followed by a character that is
    not whitespace (`f`, `=`, `{`, `v`, `h`), so each run matches
    deterministically; the only choice is the lazy `.*?`. A leftmost search
    therefore yields the first start position at which some match exists and,
    at that start, the closing `}` nearest to the opening `{`. The matcher
    below is written that way, and the lemmas relate it to the declarative
    definition of the pattern (RegexMatch) that allows every split. */
module ScriptExtraction {
  import opened Wrappers

  /** `\s` in a Python str pattern: exactly the characters for which
      str.isspace() holds. */
  predicate IsSpace(c: char) {
    || ('\t' <= c <= '\r')
    || ('\U{1C}' <= c <= ' ')
    || c == '\U{85}' || c == '\U{A0}' || c == '\U{1680}'
    || ('\U{2000}' <= c <= '\U{200A}')
    || c == '\U{2028}' || c == '\U{2029}' || c == '\U{202F}'
    || c == '\U{205F}' || c == '\U{3000}'
  }

  /** s[i..j] is a (possibly empty) run of whitespace. */
  ghost predicate SpaceRun(s: string, i: nat, j: nat) {
    i <= j <= |s| && forall t :: i <= t < j ==> IsSpace(s[t])
  }

  /** The word w occurs in s at position i. */
  predicate WordAt(s: string, i: nat, w: string) {
    i + |w| <= |s| && s[i..i + |w|] == w
  }

  /** The end of the longest whitespace run starting at i (greedy `\s*`). */
  function SkipSpaces(s: string, i: nat): (j: nat)
    requires i <= |s|
    ensures SpaceRun(s, i, j)
    ensures j == |s| || !IsSpace(s[j])
    decreases |s| - i
  {
    if i < |s| && IsSpace(s[i]) then SkipSpaces(s, i + 1) else i
  }

  /** A whitespace run that stops before a non-whitespace character is the
      greedy one. */
  lemma SpaceRunIsGreedy(s: string, i: nat, j: nat)
    requires SpaceRun(s, i, j)
    requires j < |s| && !IsSpace(s[j])
    ensures SkipSpaces(s, i) == j
  {
  }

  /** A whitespace run that ends where a word starting with a
      non-whitespace character begins is the greedy one. */
  lemma WordAfterRun(s: string, i: nat, a: nat, w: string)
    requires SpaceRun(s, i, a) && WordAt(s, a, w)
    requires |w| > 0 && !IsSpace(w[0])
    ensures SkipSpaces(s, i) == a
  {
    assert s[a] == s[a..a + |w|][0];
    SpaceRunIsGreedy(s, i, a);
  }

  // ---------------------------------------------------------------------
  // `var\s+findagrave\s*=`

  /** s[p..q] is matched by `var\s+findagrave\s*=` (any split of the runs). */
  ghost predicate DeclSpec(s: string, p: nat, q: nat) {
    && p < q <= |s|
    && WordAt(s, p, "var")
    && s[q - 1] == '='
    && exists k: nat :: p + 3 < k && SpaceRun(s, p + 3, k)
                        && WordAt(s, k, "findagrave") && SpaceRun(s, k + 10, q - 1)
  }

  /** Where `var\s+findagrave\s*=` anchored at p ends, if it matches there. */
  function DeclEnd(s: string, p: nat): Option<nat>
    requires p <= |s|
  {
    if !WordAt(s, p, "var") then None
    else
      var k := SkipSpaces(s, p + 3);
      if k == p + 3 || !WordAt(s, k, "findagrave") then None
      else
        var m := SkipSpaces(s, k + 10);
        if m < |s| && s[m] == '=' then Some(m + 1) else None
  }

  lemma DeclEndIsSound(s: string, p: nat, q: nat)
    requires p <= |s|
    requires DeclEnd(s, p) == Some(q)
    ensures DeclSpec(s, p, q)
  {
    var k := SkipSpaces(s, p + 3);
    assert p + 3 < k && SpaceRun(s, p + 3, k) && WordAt(s, k, "findagrave")
        && SpaceRun(s, k + 10, q - 1);
  }

  lemma DeclEndIsComplete(s: string, p: nat, q: nat)
    requires p <= |s|
    requires DeclSpec(s, p, q)
    ensures DeclEnd(s, p) == Some(q)
  {
    var k: nat :| p + 3 < k && SpaceRun(s, p + 3, k)
                  && WordAt(s, k, "findagrave") && SpaceRun(s, k + 10, q - 1);
    WordAfterRun(s, p + 3, k, "findagrave");
    SpaceRunIsGreedy(s, k + 10, q - 1);
  }

  lemma DeclEndMatchesSpec(s: string, p: nat, q: nat)
    requires p <= |s|
    ensures DeclEnd(s, p) == Some(q) <==> DeclSpec(s, p, q)
  {
    if DeclEnd(s, p) == Some(q) {
      DeclEndIsSound(s, p, q);
    }
    if DeclSpec(s, p, q) {
      DeclEndIsComplete(s, p, q);
    }
  }

  /** The text of a script declares the variable: `re.search` of
      `var\s+findagrave\s*=` succeeds. */
  ghost predicate Declares(s: string) {
    exists p: nat, q: nat :: DeclSpec(s, p, q)
  }

  /** Scan for a declaration starting at p or later. */
  predicate DeclaresFrom(s: string, p: nat)
    requires p <= |s|
    decreases |s| - p
  {
    DeclEnd(s, p).Some? || (p < |s| && DeclaresFrom(s, p + 1))
  }

  lemma {:induction false} DeclaresFromSpec(s: string, p: nat)
    requires p <= |s|
    ensures DeclaresFrom(s, p) <==> exists p': nat, q: nat :: p <= p' && DeclSpec(s, p', q)
    decreases |s| - p
  {
    if DeclEnd(s, p).Some? {
      DeclEndMatchesSpec(s, p, DeclEnd(s, p).value);
    } else {
      forall q: nat ensures !DeclSpec(s, p, q) {
        DeclEndMatchesSpec(s, p, q);
      }
      if p < |s| {
        DeclaresFromSpec(s, p + 1);
      }
    }
  }

  /** The scan decides exactly the declaration test. */
  lemma DeclaresIsDecided(s: string)
    ensures DeclaresFrom(s, 0) <==> Declares(s)
  {
    DeclaresFromSpec(s, 0);
  }

  // ---------------------------------------------------------------------
  // `;\s*var\s+htmlSnippets`

  /** s[i..] begins with `;\s*var\s+htmlSnippets` (any split of the runs). */
  ghost predicate TerminatorSpec(s: string, i: nat) {
    && i < |s| && s[i] == ';'
    && exists a: nat, c: nat :: SpaceRun(s, i + 1, a) && WordAt(s, a, "var")
                                && a + 3 < c && SpaceRun(s, a + 3, c)
                                && WordAt(s, c, "htmlSnippets")
  }

  predicate TerminatorAt(s: string, i: nat)
    requires i <= |s|
  {
    && i < |s| && s[i] == ';'
    && var a := SkipSpaces(s, i + 1);
       && WordAt(s, a, "var")
       && var c := SkipSpaces(s, a + 3);
          a + 3 < c && WordAt(s, c, "htmlSnippets")
  }

  lemma TerminatorAtIsSound(s: string, i: nat)
    requires i <= |s|
    requires TerminatorAt(s, i)
    ensures TerminatorSpec(s, i)
  {
    var a := SkipSpaces(s, i + 1);
    var c := SkipSpaces(s, a + 3);
    assert SpaceRun(s, i + 1, a) && WordAt(s, a, "var")
        && a + 3 < c && SpaceRun(s, a + 3, c) && WordAt(s, c, "htmlSnippets");
  }

  lemma TerminatorAtIsComplete(s: string, i: nat)
    requires i <= |s|
    requires TerminatorSpec(s, i)
    ensures TerminatorAt(s, i)
  {
    var a: nat, c: nat :| SpaceRun(s, i + 1, a) && WordAt(s, a, "var")
                          && a + 3 < c && SpaceRun(s, a + 3, c)
                          && WordAt(s, c, "htmlSnippets");
    WordAfterRun(s, i + 1, a, "var");
    WordAfterRun(s, a + 3, c, "htmlSnippets");
  }

  lemma TerminatorAtMatchesSpec(s: string, i: nat)
    requires i <= |s|
    ensures TerminatorAt(s, i) <==> TerminatorSpec(s, i)
  {
    if TerminatorAt(s, i) {
      TerminatorAtIsSound(s, i);
    }
    if TerminatorSpec(s, i) {
      TerminatorAtIsComplete(s, i);
    }
  }

  // ---------------------------------------------------------------------
  // The whole pattern

  /** A `}` at e that the lazy group may stop at: the terminator follows it. */
  predicate CloseAt(s: string, e: nat) {
    e < |s| && s[e] == '}' && TerminatorAt(s, e + 1)
  }

  /** The first position at e or later where the group may close. */
  function FirstClose(s: string, e: nat): (r: Option<nat>)
    requires e <= |s|
    ensures r.Some? ==> e <= r.value < |s| && CloseAt(s, r.value)
    ensures r.Some? ==> forall t :: e <= t < r.value ==> !CloseAt(s, t)
    ensures r.None? ==> forall t :: e <= t ==> !CloseAt(s, t)
    decreases |s| - e
  {
    if e == |s| then None
    else if CloseAt(s, e) then Some(e)
    else FirstClose(s, e + 1)
  }

  /** The regex matches with its start at p, its group `({.*?})` spanning
      s[b..e + 1]; every split of the whitespace runs and every choice of the
      closing brace is allowed. */
  ghost predicate RegexMatch(s: string, p: nat, b: nat, e: nat) {
    && b < e < |s|
    && s[b] == '{' && s[e] == '}'
    && TerminatorSpec(s, e + 1)
    && exists q: nat :: DeclSpec(s, p, q) && SpaceRun(s, q, b)
  }

  ghost predicate MatchesAt(s: string, p: nat) {
    exists b: nat, e: nat :: RegexMatch(s, p, b, e)
  }

  /** What `re.search` reports: the leftmost start with a match and, there,
      the shortest group. */
  ghost predicate SearchResult(s: string, p: nat, b: nat, e: nat) {
    && RegexMatch(s, p, b, e)
    && (forall p': nat :: p' < p ==> !MatchesAt(s, p'))
    && (forall e': nat :: e' < e ==> !RegexMatch(s, p, b, e'))
  }

  /** The group (b, e) of the match anchored at p, if there is one. */
  function MatchAt(s: string, p: nat): (r: Option<(nat, nat)>)
    requires p <= |s|
    ensures r.Some? ==> r.value.0 < r.value.1 < |s|
  {
    match DeclEnd(s, p)
    case None => None
    case Some(q) =>
      var b := SkipSpaces(s, q);
      if b < |s| && s[b] == '{' then
        match FirstClose(s, b + 1)
        case None => None
        case Some(e) => Some((b, e))
      else None
  }

  /** The opening brace of any match anchored at p is where the greedy run
      after the declaration ends. */
  lemma RegexMatchOpens(s: string, p: nat, b: nat, e: nat)
    requires p <= |s|
    requires RegexMatch(s, p, b, e)
    ensures DeclEnd(s, p).Some? && DeclEnd(s, p).value <= |s|
    ensures SkipSpaces(s, DeclEnd(s, p).value) == b
  {
    var q: nat :| DeclSpec(s, p, q) && SpaceRun(s, q, b);
    DeclEndIsComplete(s, p, q);
    SpaceRunIsGreedy(s, q, b);
  }

  /** Any match anchored at p is found by MatchAt, with the same opening brace
      and a closing brace no later than its own. */
  lemma RegexMatchIsFound(s: string, p: nat, b: nat, e: nat)
    requires p <= |s|
    requires RegexMatch(s, p, b, e)
    ensures MatchAt(s, p).Some?
    ensures MatchAt(s, p).value.0 == b && MatchAt(s, p).value.1 <= e
  {
    RegexMatchOpens(s, p, b, e);
    TerminatorAtIsComplete(s, e + 1);
    assert CloseAt(s, e);
  }

  lemma MatchAtIsShortestMatch(s: string, p: nat)
    requires p <= |s|
    ensures MatchAt(s, p).None? ==> !MatchesAt(s, p)
    ensures MatchAt(s, p).Some? ==>
              var (b, e) := MatchAt(s, p).value;
              && RegexMatch(s, p, b, e)
              && forall e': nat :: e' < e ==> !RegexMatch(s, p, b, e')
  {
    if MatchAt(s, p).None? {
      if MatchesAt(s, p) {
        var b: nat, e: nat :| RegexMatch(s, p, b, e);
        RegexMatchIsFound(s, p, b, e);
      }
    } else {
      var (b, e) := MatchAt(s, p).value;
      var q := DeclEnd(s, p).value;
      DeclEndMatchesSpec(s, p, q);
      TerminatorAtMatchesSpec(s, e + 1);
      assert RegexMatch(s, p, b, e);
      forall e': nat | e' < e ensures !RegexMatch(s, p, b, e') {
        if RegexMatch(s, p, b, e') {
          RegexMatchIsFound(s, p, b, e');
        }
      }
    }
  }

  /** The first entry at p or later that holds a value, with its index. */
  function FirstFound<T>(xs: seq<Option<T>>, p: nat): (r: Option<(nat, T)>)
    requires p <= |xs|
    ensures r.None? ==> forall i :: p <= i < |xs| ==> xs[i].None?
    ensures r.Some? ==> p <= r.value.0 < |xs| && xs[r.value.0] == Some(r.value.1)
    ensures r.Some? ==> forall i :: p <= i < r.value.0 ==> xs[i].None?
    decreases |xs| - p
  {
    if p == |xs| then None
    else if xs[p].Some? then Some((p, xs[p].value))
    else FirstFound(xs, p + 1)
  }

  /** The anchored match at every start 0, ..., |s|. */
  function Anchored(s: string): seq<Option<(nat, nat)>> {
    seq(|s| + 1, p requires 0 <= p <= |s| => MatchAt(s, p))
  }

  /** Leftmost search: the first start with an anchored match, and the
      group found there. */
  function Search(s: string): (r: Option<(nat, nat, nat)>)
    ensures r.Some? ==> r.value.0 <= |s| && r.value.1 < r.value.2 < |s|
  {
    match FirstFound(Anchored(s), 0)
    case None => None
    case Some((p, be)) => Some((p, be.0, be.1))
  }

  /** The search stops at the first start where the anchored matcher finds a
      group, and finds none only when it finds none anywhere. */
  lemma SearchIsLeftmost(s: string)
    ensures Search(s).None? ==> forall p: nat :: p <= |s| ==> MatchAt(s, p).None?
    ensures Search(s).Some? ==>
              var r := Search(s).value;
              && MatchAt(s, r.0) == Some((r.1, r.2))
              && forall p: nat :: p < r.0 ==> MatchAt(s, p).None?
  {
    var xs := Anchored(s);
    if FirstFound(xs, 0).Some? {
      var r := Search(s).value;
      forall p: nat | p < r.0 ensures MatchAt(s, p).None? {
        assert xs[p].None?;
      }
    } else {
      forall p: nat | p <= |s| ensures MatchAt(s, p).None? {
        assert xs[p].None?;
      }
    }
  }

  /** No match starts where the anchored matcher finds none. */
  lemma NoMatchWhereNoneFound(s: string)
    ensures forall p: nat :: p <= |s| && MatchAt(s, p).None? ==> !MatchesAt(s, p)
    ensures forall p: nat :: p > |s| ==> !MatchesAt(s, p)
  {
    forall p: nat | p <= |s| && MatchAt(s, p).None? ensures !MatchesAt(s, p) {
      MatchAtIsShortestMatch(s, p);
    }
  }

  /** The search from the start of the text fails iff the pattern matches
      nowhere. */
  lemma SearchFailsIffNoMatch(s: string)
    ensures Search(s).None? <==> forall p: nat :: !MatchesAt(s, p)
  {
    SearchIsLeftmost(s);
    NoMatchWhereNoneFound(s);
    if Search(s).Some? {
      var r := Search(s).value;
      MatchAtIsShortestMatch(s, r.0);
      assert MatchesAt(s, r.0);
    }
  }

  /** A result of the search from the start of the text is what `re.search`
      reports: the leftmost start and, there, the shortest group. */
  lemma SearchIsReSearch(s: string)
    ensures Search(s).None? <==> forall p: nat :: !MatchesAt(s, p)
    ensures Search(s).Some? ==>
              var r := Search(s).value; SearchResult(s, r.0, r.1, r.2)
  {
    SearchFailsIffNoMatch(s);
    if Search(s).Some? {
      var r := Search(s).value;
      SearchIsLeftmost(s);
      NoMatchWhereNoneFound(s);
      MatchAtIsShortestMatch(s, r.0);
    }
  }

  /** `re.search` has at most one result. */
  lemma SearchResultUnique(s: string, p: nat, b: nat, e: nat, p': nat, b': nat, e': nat)
    requires SearchResult(s, p, b, e) && SearchResult(s, p', b', e')
    ensures p == p' && b == b' && e == e'
  {
    assert MatchesAt(s, p) && MatchesAt(s, p');
    assert p == p';
    assert p <= |s| && p' <= |s|;
    RegexMatchOpens(s, p, b, e);
    RegexMatchOpens(s, p, b', e');
  }

  /** The search reports the (unique) `re.search` result. */
  lemma SearchFindsResult(s: string, p: nat, b: nat, e: nat)
    requires SearchResult(s, p, b, e)
    ensures Search(s) == Some((p, b, e))
  {
    SearchIsReSearch(s);
    assert MatchesAt(s, p);
    var r := Search(s).value;
    SearchResultUnique(s, p, b, e, r.0, r.1, r.2);
  }

  // ---------------------------------------------------------------------
  // Choosing the script and building the code to evaluate

  datatype JsError =
    | Missing       // no script element declares `findagrave`
    | NotExtracted  // the declaring script has no literal ending before `var htmlSnippets`
    | EvalFailed    // the evaluator rejected the snippet

  /** The test `soup.find("script", string=...)` applies to one script
      element, given its `.string` (None when the element does not have a
      single text child). */
  ghost predicate ScriptDeclares(script: Option<string>) {
    script.Some? && Declares(script.value)
  }

  /** Script i is the one `soup.find` returns: the first that declares. */
  ghost predicate FirstDeclaring(scripts: seq<Option<string>>, i: nat) {
    && i < |scripts|
    && ScriptDeclares(scripts[i])
    && forall j :: 0 <= j < i ==> !ScriptDeclares(scripts[j])
  }

  function FirstDeclaringFrom(scripts: seq<Option<string>>, i: nat): (r: Option<nat>)
    requires i <= |scripts|
    ensures r.Some? ==> i <= r.value < |scripts| && scripts[r.value].Some?
    decreases |scripts| - i
  {
    if i == |scripts| then None
    else if scripts[i].Some? && DeclaresFrom(scripts[i].value, 0) then Some(i)
    else FirstDeclaringFrom(scripts, i + 1)
  }

  lemma {:induction false} FirstDeclaringFromSpec(scripts: seq<Option<string>>, i: nat)
    requires i <= |scripts|
    ensures FirstDeclaringFrom(scripts, i).None? ==>
              forall j :: i <= j < |scripts| ==> !ScriptDeclares(scripts[j])
    ensures FirstDeclaringFrom(scripts, i).Some? ==>
              var k := FirstDeclaringFrom(scripts, i).value;
              ScriptDeclares(scripts[k]) && forall j :: i <= j < k ==> !ScriptDeclares(scripts[j])
    decreases |scripts| - i
  {
    if i < |scripts| {
      if scripts[i].Some? {
        DeclaresIsDecided(scripts[i].value);
      }
      FirstDeclaringFromSpec(scripts, i + 1);
    }
  }

  /** The code handed to the evaluator for a captured literal. */
  function EvalSnippet(literal: string): string {
    "var findagrave = " + literal + "; findagrave;"
  }

  /** The literal `match.group(1)` captures in the first declaring script,
      or why there is none. */
  function Captured(scripts: seq<Option<string>>): Result<string, JsError> {
    match FirstDeclaringFrom(scripts, 0)
    case None => Failure(Missing)
    case Some(i) =>
      var text := scripts[i].value;
      match Search(text)
      case None => Failure(NotExtracted)
      case Some(r) => Success(text[r.1..r.2 + 1])
  }

  /** The code step 3 hands to the evaluator, or why there is none. */
  function JsCode(scripts: seq<Option<string>>): Result<string, JsError> {
    match Captured(scripts)
    case Failure(e) => Failure(e)
    case Success(literal) => Success(EvalSnippet(literal))
  }

  /** "Missing" is reported exactly when no script declares the variable. */
  lemma MissingIffNoScriptDeclares(scripts: seq<Option<string>>)
    ensures JsCode(scripts) == Failure(Missing) <==>
              forall j :: 0 <= j < |scripts| ==> !ScriptDeclares(scripts[j])
  {
    FirstDeclaringFromSpec(scripts, 0);
  }

  /** The scan finds the script `soup.find` returns. */
  lemma FirstDeclaringIsFound(scripts: seq<Option<string>>, i: nat)
    requires FirstDeclaring(scripts, i)
    ensures FirstDeclaringFrom(scripts, 0) == Some(i)
  {
    FirstDeclaringFromSpec(scripts, 0);
  }

  /** With script i the one found, "Failed to extract" is reported exactly
      when the pattern matches nowhere in its text. */
  lemma NotExtractedIffNoMatch(scripts: seq<Option<string>>, i: nat)
    requires FirstDeclaring(scripts, i)
    ensures JsCode(scripts) == Failure(NotExtracted) <==>
              forall p: nat :: !MatchesAt(scripts[i].value, p)
  {
    FirstDeclaringIsFound(scripts, i);
    SearchIsReSearch(scripts[i].value);
  }

  /** The capture on the script the scan found, when the search succeeds
      there. */
  lemma CapturedOfFoundMatch(scripts: seq<Option<string>>, i: nat, p: nat, b: nat, e: nat)
    requires FirstDeclaringFrom(scripts, 0) == Some(i)
    requires Search(scripts[i].value) == Some((p, b, e))
    ensures Captured(scripts) == Success(scripts[i].value[b..e + 1])
  {
  }

  /** With script i the one found and (p, b, e) what `re.search` reports on
      its text, the capture is exactly the group. */
  lemma CapturedIsSearchedGroup(scripts: seq<Option<string>>, i: nat, p: nat, b: nat, e: nat)
    requires FirstDeclaring(scripts, i)
    requires SearchResult(scripts[i].value, p, b, e)
    ensures Captured(scripts) == Success(scripts[i].value[b..e + 1])
  {
    FirstDeclaringIsFound(scripts, i);
    SearchFindsResult(scripts[i].value, p, b, e);
    CapturedOfFoundMatch(scripts, i, p, b, e);
  }

  /** With script i the one found and (p, b, e) what `re.search` reports on
      its text, the evaluated code wraps exactly the group. */
  lemma SnippetWrapsSearchedLiteral(scripts: seq<Option<string>>, i: nat, p: nat, b: nat, e: nat)
    requires FirstDeclaring(scripts, i)
    requires SearchResult(scripts[i].value, p, b, e)
    ensures JsCode(scripts) == Success(EvalSnippet(scripts[i].value[b..e + 1]))
  {
    CapturedIsSearchedGroup(scripts, i, p, b, e);
  }

  /** The group `re.search` reports is braced, is followed by
      `;\s*var\s+htmlSnippets`, and no `}` inside it is. */
  lemma SearchResultIsShortestLiteral(s: string, p: nat, b: nat, e: nat)
    requires SearchResult(s, p, b, e)
    ensures var lit := s[b..e + 1];
            |lit| >= 2 && lit[0] == '{' && lit[|lit| - 1] == '}'
    ensures TerminatorSpec(s, e + 1)
    ensures forall t: nat :: b < t < e ==> !(s[t] == '}' && TerminatorSpec(s, t + 1))
  {
    forall t: nat | b < t < e ensures !(s[t] == '}' && TerminatorSpec(s, t + 1)) {
      assert !RegexMatch(s, p, b, t);
    }
  }

  /** Any capture comes from the first declaring script and is the group of
      the `re.search` result on its text. */
  lemma CapturedShape(scripts: seq<Option<string>>)
      returns (i: nat, p: nat, b: nat, e: nat)
    requires Captured(scripts).Success?
    ensures FirstDeclaring(scripts, i)
    ensures SearchResult(scripts[i].value, p, b, e)
    ensures Captured(scripts) == Success(scripts[i].value[b..e + 1])
  {
    FirstDeclaringFromSpec(scripts, 0);
    i := FirstDeclaringFrom(scripts, 0).value;
    var s := scripts[i].value;
    SearchIsReSearch(s);
    var r := Search(s).value;
    p, b, e := r.0, r.1, r.2;
    CapturedOfFoundMatch(scripts, i, p, b, e);
  }

  /** Any code produced comes from the first declaring script and wraps the
      group of the `re.search` result on its text (whose shape
      SearchResultIsShortestLiteral gives). */
  lemma SnippetShape(scripts: seq<Option<string>>, code: string)
      returns (i: nat, p: nat, b: nat, e: nat)
    requires JsCode(scripts) == Success(code)
    ensures FirstDeclaring(scripts, i)
    ensures SearchResult(scripts[i].value, p, b, e)
    ensures code == EvalSnippet(scripts[i].value[b..e + 1])
  {
    i, p, b, e := CapturedShape(scripts);
  }
}

/** Steps 5 to 7 of the scraper: the values read from the page's markup.
    HTML parsing is not modelled; a page is given by what each lookup finds
    (each `find` yields the first matching element or nothing, and each
    text is `get_text(strip=True)` of what was found). */
module MarkupSections {
  import opened Wrappers

  datatype Page = Page(
    /** `.string` of every `<script>` element in document order; None when the
        element has no single text child. */
    scripts: seq<Option<string>>,
    /** Text of the first `div#partBio`. */
    partBio: Option<string>,
    /** The first `p.text-muted`, if any, and in it the text of its first
        `<a>`, if any. */
    mutedParagraph: Option<Option<string>>,
    /** Text of the first `span#plotValueLabel`. */
    plotValueLabel: Option<string>,
    /** Text of the first `div.inscription`. */
    inscription: Option<string>,
    /** The first `section#family-members`, if any: for each value of
        `data-relationship` that has a `div` in it, the texts of the first
        such div's `<a href>` links in document order. */
    family: Option<map<string, seq<string>>>)

  /** `biography`: the bio text, or "" without the element. */
  function BiographyText(page: Page): string {
    match page.partBio
    case Some(text) => text
    case None => ""
  }

  /** `bio_by`: the link text, or "" without the paragraph or its link. */
  function BioByText(page: Page): string {
    match page.mutedParagraph
    case Some(Some(link)) => link
    case _ => ""
  }

  function PlotText(page: Page): string {
    match page.plotValueLabel
    case Some(text) => text
    case None => ""
  }

  function InscriptionText(page: Page): string {
    match page.inscription
    case Some(text) => text
    case None => ""
  }

  /** Each text is the one found, and "" when its element is missing; the
      contributor is "" also when the paragraph has no link. */
  lemma MarkupDefaults(page: Page)
    ensures page.partBio.None? ==> BiographyText(page) == ""
    ensures page.partBio.Some? ==> BiographyText(page) == page.partBio.value
    ensures page.mutedParagraph.None? ==> BioByText(page) == ""
    ensures page.mutedParagraph.Some? && page.mutedParagraph.value.None? ==> BioByText(page) == ""
    ensures page.mutedParagraph.Some? && page.mutedParagraph.value.Some? ==>
              BioByText(page) == page.mutedParagraph.value.value
    ensures page.plotValueLabel.None? ==> PlotText(page) == ""
    ensures page.plotValueLabel.Some? ==> PlotText(page) == page.plotValueLabel.value
    ensures page.inscription.None? ==> InscriptionText(page) == ""
    ensures page.inscription.Some? ==> InscriptionText(page) == page.inscription.value
  {
  }

  // ---------------------------------------------------------------------
  // Family links

  /** The keys of `family_links`, in their order. */
  const Relations: seq<string> := ["parents", "spouses", "children"]

  /** The link texts of one relationship category; [] without the family
      section or without that category's block. */
  function RelationLinks(family: Option<map<string, seq<string>>>, relation: string): seq<string> {
    match family
    case None => []
    case Some(blocks) => if relation in blocks then blocks[relation] else []
  }

  /** The `family_links` dict after the loop over its keys. */
  method CollectFamily(family: Option<map<string, seq<string>>>) returns (links: map<string, seq<string>>)
    ensures links.Keys == {"parents", "spouses", "children"}
    ensures forall relation :: relation in links ==> links[relation] == RelationLinks(family, relation)
  {
    links := map["parents" := [], "spouses" := [], "children" := []];
    if family.Some? {
      var blocks := family.value;
      for i := 0 to |Relations|
        invariant links.Keys == {"parents", "spouses", "children"}
        invariant forall j :: 0 <= j < |Relations| ==>
                    links[Relations[j]] == if j < i then RelationLinks(family, Relations[j]) else []
      {
        var relation := Relations[i];
        if relation in blocks {
          links := links[relation := blocks[relation]];
        }
      }
    }
    forall relation | relation in links ensures links[relation] == RelationLinks(family, relation) {
      assert relation == Relations[0] || relation == Relations[1] || relation == Relations[2];
    }
  }

  /** `sep.join(parts)`. */
  function Join(parts: seq<string>, sep: string): string
    decreases |parts|
  {
    if |parts| == 0 then ""
    else if |parts| == 1 then parts[0]
    else parts[0] + sep + Join(parts[1..], sep)
  }

  /** Joining one more part appends the separator and the part, as the
      left-to-right loop of `str.join` does. */
  lemma {:induction false} JoinAppend(parts: seq<string>, part: string, sep: string)
    requires |parts| > 0
    ensures Join(parts + [part], sep) == Join(parts, sep) + sep + part
    decreases |parts|
  {
    if |parts| == 1 {
      assert parts + [part] == [parts[0], part];
      assert [parts[0], part][1..] == [part];
    } else {
      assert (parts + [part])[1..] == parts[1..] + [part];
      JoinAppend(parts[1..], part, sep);
    }
  }

  /** A ", " separator starts at t. */
  predicate SepAt(s: string, t: nat) {
    t + 1 < |s| && s[t] == ',' && s[t + 1] == ' '
  }

  /** The first separator at i or later, or |s| if there is none. */
  function NextSep(s: string, i: nat): (k: nat)
    requires i <= |s|
    ensures i <= k <= |s|
    ensures k < |s| ==> SepAt(s, k)
    ensures forall t :: i <= t < k ==> !SepAt(s, t)
    decreases |s| - i
  {
    if i == |s| || SepAt(s, i) then i else NextSep(s, i + 1)
  }

  /** `s.split(", ")`. */
  function Split(s: string): seq<string>
    decreases |s|
  {
    var k := NextSep(s, 0);
    if k == |s| then [s] else [s[..k]] + Split(s[k + 2..])
  }

  /** No ", " separator occurs in the part. */
  predicate SepFree(part: string) {
    forall t :: 0 <= t < |part| ==> !SepAt(part, t)
  }

  predicate SeparatorFree(parts: seq<string>) {
    forall i :: 0 <= i < |parts| ==> SepFree(parts[i])
  }

  /** NextSep finds the separator that no other one precedes. */
  lemma {:induction false} NextSepIs(s: string, i: nat, k: nat)
    requires i <= k <= |s|
    requires k == |s| || SepAt(s, k)
    requires forall t :: i <= t < k ==> !SepAt(s, t)
    ensures NextSep(s, i) == k
    decreases k - i
  {
    if i < k {
      NextSepIs(s, i + 1, k);
    }
  }

  /** In x + tail, with no separator in x and tail empty or starting with
      one, the first separator is right after x (a comma ending x is followed
      by the separator's comma, not by a space). */
  lemma NextSepAfterPart(x: string, tail: string)
    requires SepFree(x)
    requires tail == [] || (|tail| >= 2 && tail[..2] == ", ")
    ensures NextSep(x + tail, 0) == |x|
  {
    var s := x + tail;
    if tail != [] {
      assert tail[0] == (tail[..2])[0] && tail[1] == (tail[..2])[1];
      assert s[|x|] == tail[0] && s[|x| + 1] == tail[1];
    }
    forall t | 0 <= t < |x| ensures !SepAt(s, t) {
      assert s[t] == x[t];
      if t + 1 < |x| {
        assert s[t + 1] == x[t + 1];
        assert !SepAt(x, t);
      } else if t + 1 < |s| {
        assert s[t + 1] == tail[0];
      }
    }
    NextSepIs(s, 0, |x|);
  }

  /** Splitting the joined link texts on ", " gives them back, in order,
      provided none of them contains ", " itself (with no texts the join is
      "" and splitting gives [""]). */
  lemma {:induction false} SplitJoin(parts: seq<string>)
    requires |parts| > 0
    requires SeparatorFree(parts)
    ensures Split(Join(parts, ", ")) == parts
    decreases |parts|
  {
    var x := parts[0];
    assert SepFree(x);
    if |parts| == 1 {
      NextSepAfterPart(x, []);
      assert x + [] == x;
    } else {
      var rest := Join(parts[1..], ", ");
      var s := x + ", " + rest;
      assert s == x + (", " + rest);
      assert (", " + rest)[..2] == ", ";
      NextSepAfterPart(x, ", " + rest);
      assert s[..|x|] == x;
      assert s[|x| + 2..] == rest;
      assert SeparatorFree(parts[1..]) by {
        forall i | 0 <= i < |parts[1..]| ensures SepFree(parts[1..][i]) {
          assert parts[1..][i] == parts[i + 1];
        }
      }
      SplitJoin(parts[1..]);
    }
  }
}

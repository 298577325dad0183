/**
 * Walking the ICD-10-CM tabular XML (src/process_icd10_hierarchy.py). The XML arrives already
 * parsed, as a tree of elements; only the ElementTree lookups the walk uses are modelled:
 * `find(tag)`, `findall("./diag")`, `findall(".//diag")` and `findall(".//t/note")`.
 */
module Hierarchy {

  import opened Wrappers

  /** An ElementTree element: its tag, its text (None when the element has none) and its children. */
  datatype Element = Element(tag: string, text: Option<string>, children: seq<Element>)

  /** The first element of `cs` tagged `tag`. */
  function FirstTagged(cs: seq<Element>, tag: string): (r: Option<Element>)
    ensures r.None? <==> forall c :: c in cs ==> c.tag != tag
    ensures r.Some? ==> exists i :: 0 <= i < |cs| && cs[i] == r.value && r.value.tag == tag
                                    && forall j :: 0 <= j < i ==> cs[j].tag != tag
  {
    if cs == [] then None
    else if cs[0].tag == tag then Some(cs[0])
    else
      var r := FirstTagged(cs[1..], tag);
      assert forall c :: c in cs ==> c == cs[0] || c in cs[1..];
      if r.Some? then
        var i :| 0 <= i < |cs[1..]| && cs[1..][i] == r.value && r.value.tag == tag
                  && forall j :: 0 <= j < i ==> cs[1..][j].tag != tag;
        assert cs[i + 1] == r.value;
        assert forall j :: 1 <= j < i + 1 ==> cs[j] == cs[1..][j - 1];
        r
      else r
  }

  /** `e.find(tag)`: the first direct child of `e` tagged `tag`, None when there is none. */
  function Find(e: Element, tag: string): (r: Option<Element>)
    ensures r.None? <==> forall c :: c in e.children ==> c.tag != tag
    ensures r.Some? ==> r.value in e.children && r.value.tag == tag
  {
    FirstTagged(e.children, tag)
  }

  /** The elements of `s` tagged `tag`, in order. */
  function Tagged(s: seq<Element>, tag: string): (r: seq<Element>)
    ensures forall x :: x in r <==> x in s && x.tag == tag
    ensures |r| <= |s|
  {
    if s == [] then []
    else
      var front := s[..|s| - 1];
      assert s == front + [s[|s| - 1]];
      Tagged(front, tag) + (if s[|s| - 1].tag == tag then [s[|s| - 1]] else [])
  }

  lemma {:induction false} TaggedAppend(a: seq<Element>, b: seq<Element>, tag: string)
    ensures Tagged(a + b, tag) == Tagged(a, tag) + Tagged(b, tag)
    decreases |b|
  {
    if b != [] {
      var b' := b[..|b| - 1];
      assert (a + b)[..|a + b| - 1] == a + b';
      TaggedAppend(a, b', tag);
    } else {
      assert a + b == a;
    }
  }

  lemma {:induction false} TaggedNone(s: seq<Element>, tag: string)
    requires forall x :: x in s ==> x.tag != tag
    ensures Tagged(s, tag) == []
    decreases |s|
  {
    if s != [] {
      TaggedNone(s[..|s| - 1], tag);
    }
  }

  /** `e.findall("./diag")`: the direct diag children of `e`, in document order. */
  function ChildDiags(e: Element): (r: seq<Element>)
    ensures forall x :: x in r <==> x in e.children && x.tag == "diag"
  {
    Tagged(e.children, "diag")
  }

  /** Every element strictly below `e`, in document (pre-)order, as ElementTree's `.//` walks them. */
  function Descendants(e: Element): seq<Element>
    decreases e
  {
    DescendantsOf(e.children)
  }

  /** Every element in the subtrees rooted at `cs`, roots included, in document order. */
  function DescendantsOf(cs: seq<Element>): seq<Element>
    decreases cs
  {
    if cs == [] then []
    else
      var last := cs[|cs| - 1];
      DescendantsOf(cs[..|cs| - 1]) + [last] + Descendants(last)
  }

  /** `e.findall(".//diag")`: every diag strictly below `e`, in document order. */
  function DescendantDiags(e: Element): (r: seq<Element>)
    ensures forall x :: x in r <==> x in Descendants(e) && x.tag == "diag"
  {
    Tagged(Descendants(e), "diag")
  }

  /** Everything below an element is structurally smaller than it. */
  lemma {:induction false} DescendantSmaller(e: Element, x: Element)
    requires x in Descendants(e)
    ensures x < e
    decreases e, 1
  {
    DescendantOfSmaller(e.children, x);
    var i :| 0 <= i < |e.children| && (x == e.children[i] || x < e.children[i]);
    assert e.children[i] < e;
  }

  lemma {:induction false} DescendantOfSmaller(cs: seq<Element>, x: Element)
    requires x in DescendantsOf(cs)
    ensures exists i :: 0 <= i < |cs| && (x == cs[i] || x < cs[i])
    decreases cs, 0
  {
    var front := cs[..|cs| - 1];
    var last := cs[|cs| - 1];
    if x in DescendantsOf(front) {
      DescendantOfSmaller(front, x);
      var i :| 0 <= i < |front| && (x == front[i] || x < front[i]);
      assert cs[i] == front[i];
    } else if x != last {
      DescendantSmaller(last, x);
    }
  }

  lemma DescendantDiagsSmaller(e: Element)
    ensures forall i :: 0 <= i < |DescendantDiags(e)| ==> DescendantDiags(e)[i] < e
  {
    var ds := DescendantDiags(e);
    forall i | 0 <= i < |ds|
      ensures ds[i] < e
    {
      assert ds[i] in ds;
      DescendantSmaller(e, ds[i]);
    }
  }

  lemma ChildDiagsSmaller(e: Element)
    ensures forall i :: 0 <= i < |ChildDiags(e)| ==> ChildDiags(e)[i] < e
  {
    var cs := ChildDiags(e);
    forall i | 0 <= i < |cs|
      ensures cs[i] < e
    {
      assert cs[i] in e.children;
    }
  }

  /** A direct child is a descendant. */
  lemma {:induction false} ChildIsDescendant(cs: seq<Element>, c: Element)
    requires c in cs
    ensures c in DescendantsOf(cs)
    decreases |cs|
  {
    if c != cs[|cs| - 1] {
      assert c in cs[..|cs| - 1];
      ChildIsDescendant(cs[..|cs| - 1], c);
    }
  }

  /** Below a descendant is still below: `.//` is transitive. */
  lemma {:induction false} DescendantsTransitive(e: Element, d: Element, x: Element)
    requires d in Descendants(e) && x in Descendants(d)
    ensures x in Descendants(e)
    decreases e, 1
  {
    DescendantsOfTransitive(e.children, d, x);
  }

  lemma {:induction false} DescendantsOfTransitive(cs: seq<Element>, d: Element, x: Element)
    requires d in DescendantsOf(cs) && x in Descendants(d)
    ensures x in DescendantsOf(cs)
    decreases cs, 0
  {
    var front := cs[..|cs| - 1];
    var last := cs[|cs| - 1];
    if d in DescendantsOf(front) {
      DescendantsOfTransitive(front, d, x);
    } else if d != last {
      DescendantsTransitive(last, d, x);
    }
  }

  /** Below elements that have no children there is nothing but those elements. */
  lemma {:induction false} LeavesDescendants(cs: seq<Element>)
    requires forall c :: c in cs ==> c.children == []
    ensures DescendantsOf(cs) == cs
    decreases |cs|
  {
    if cs != [] {
      var front := cs[..|cs| - 1];
      LeavesDescendants(front);
      assert Descendants(cs[|cs| - 1]) == [];
      assert cs == front + [cs[|cs| - 1]];
    }
  }

  /** The `/note` step: the note children of each element of `ds`, in order. */
  function NoteChildren(ds: seq<Element>): (r: seq<Element>)
    ensures forall n :: n in r <==> n.tag == "note" && exists d :: d in ds && n in d.children
  {
    if ds == [] then []
    else
      var front := ds[..|ds| - 1];
      assert forall d :: d in ds <==> d in front || d == ds[|ds| - 1];
      NoteChildren(front) + Tagged(ds[|ds| - 1].children, "note")
  }

  /** `e.findall(".//t/note")`: the note children of every `t` strictly below `e`. */
  function FindAllNotes(e: Element, t: string): seq<Element>
  {
    NoteChildren(Tagged(Descendants(e), t))
  }

  /** The texts of `ns` that are present and non-empty, in order. */
  function NonEmptyTexts(ns: seq<Element>): seq<string>
  {
    if ns == [] then []
    else
      var last := ns[|ns| - 1];
      NonEmptyTexts(ns[..|ns| - 1]) + (if last.text.Some? && last.text.value != "" then [last.text.value] else [])
  }

  lemma {:induction false} NonEmptyTextsMember(ns: seq<Element>, x: string)
    ensures x in NonEmptyTexts(ns) <==> x != "" && exists n :: n in ns && n.text == Some(x)
    decreases |ns|
  {
    if ns != [] {
      var front := ns[..|ns| - 1];
      NonEmptyTextsMember(front, x);
      assert forall n :: n in ns <==> n in front || n == ns[|ns| - 1];
    }
  }

  /** The note texts gathered for each note type in turn. */
  function NotesOfTypes(e: Element, noteTypes: seq<string>): seq<string>
  {
    if noteTypes == [] then []
    else NotesOfTypes(e, noteTypes[..|noteTypes| - 1]) + NonEmptyTexts(FindAllNotes(e, noteTypes[|noteTypes| - 1]))
  }

  /** What `extract_notes` returns: None for a missing element or when no note text was found. */
  function ExtractedNotes(element: Option<Element>, noteTypes: seq<string>): (r: Option<seq<string>>)
    ensures element.None? ==> r.None?
    ensures r.Some? ==> r.value != []
  {
    match element
    case None => None
    case Some(e) =>
      var notes := NotesOfTypes(e, noteTypes);
      if notes == [] then None else Some(notes)
  }

  /** Gathering over two lists of note types in turn gives the two gatherings one after the other. */
  lemma {:induction false} NotesOfTypesAppend(e: Element, ts: seq<string>, us: seq<string>)
    ensures NotesOfTypes(e, ts + us) == NotesOfTypes(e, ts) + NotesOfTypes(e, us)
    decreases |us|
  {
    if us != [] {
      var front, last := us[..|us| - 1], us[|us| - 1];
      assert ts + us == (ts + front) + [last];
      assert us == front + [last];
      NotesOfTypesAppend(e, ts, front);
      NotesOfTypesSnoc(e, ts + front, last);
      NotesOfTypesSnoc(e, front, last);
      var a, b, c := NotesOfTypes(e, ts), NotesOfTypes(e, front), NonEmptyTexts(FindAllNotes(e, last));
      assert (a + b) + c == a + (b + c);
    } else {
      assert ts + us == ts;
      assert NotesOfTypes(e, us) == [];
    }
  }

  /** Helper for `ExtractedNotesNone`: nothing is gathered exactly when no note type yields a text. */
  lemma {:induction false} NotesOfTypesEmpty(e: Element, ts: seq<string>)
    ensures NotesOfTypes(e, ts) == [] <==> forall t :: t in ts ==> NonEmptyTexts(FindAllNotes(e, t)) == []
    decreases |ts|
  {
    if ts != [] {
      var front, last := ts[..|ts| - 1], ts[|ts| - 1];
      assert ts == front + [last];
      NotesOfTypesEmpty(e, front);
      NotesOfTypesSnoc(e, front, last);
      assert forall t :: t in ts <==> t in front || t == last;
    }
  }

  /** Helper for `NotesOfTypesAppend`: the last note type contributes its texts at the end. */
  lemma NotesOfTypesSnoc(e: Element, ts: seq<string>, t: string)
    ensures NotesOfTypes(e, ts + [t]) == NotesOfTypes(e, ts) + NonEmptyTexts(FindAllNotes(e, t))
  {
    assert (ts + [t])[..|ts|] == ts;
  }

  /** A text is gathered exactly when one of the note types yields it. */
  lemma {:induction false} NotesOfTypesMember(e: Element, ts: seq<string>, x: string)
    ensures x in NotesOfTypes(e, ts) <==> exists t :: t in ts && x in NonEmptyTexts(FindAllNotes(e, t))
    decreases |ts|
  {
    if ts != [] {
      var front := ts[..|ts| - 1];
      NotesOfTypesMember(e, front, x);
      assert forall t :: t in ts <==> t in front || t == ts[|ts| - 1];
    }
  }

  /** `extract_notes` on a present element gives None exactly when no note type yields a text. */
  lemma ExtractedNotesNone(e: Element, ts: seq<string>)
    ensures ExtractedNotes(Some(e), ts).None? <==> forall t :: t in ts ==> NonEmptyTexts(FindAllNotes(e, t)) == []
  {
    NotesOfTypesEmpty(e, ts);
    assert ExtractedNotes(Some(e), ts).None? <==> NotesOfTypes(e, ts) == [];
  }

  /** Helper for the loop of `ExtractNotes`: one more note type appends its texts. */
  lemma NotesOfTypesStep(e: Element, noteTypes: seq<string>, i: nat)
    requires i < |noteTypes|
    ensures NotesOfTypes(e, noteTypes[..i + 1]) == NotesOfTypes(e, noteTypes[..i]) + NonEmptyTexts(FindAllNotes(e, noteTypes[i]))
  {
    assert noteTypes[..i + 1][..i] == noteTypes[..i];
  }

  /** `extract_notes(element, note_types)`. */
  method ExtractNotes(element: Option<Element>, noteTypes: seq<string>) returns (r: Option<seq<string>>)
    ensures r == ExtractedNotes(element, noteTypes)
  {
    var notes: seq<string> := [];
    if element.Some? {
      var e := element.value;
      for i := 0 to |noteTypes|
        invariant notes == NotesOfTypes(e, noteTypes[..i])
      {
        var found := FindAllNotes(e, noteTypes[i]);
        var texts := AppendTexts(notes, found);
        NotesOfTypesStep(e, noteTypes, i);
        notes := texts;
      }
      assert noteTypes[..|noteTypes|] == noteTypes;
    }
    r := if notes == [] then None else Some(notes);
  }

  /** The inner loop of `extract_notes`: appends the non-empty text of each note of `found`. */
  method AppendTexts(notes: seq<string>, found: seq<Element>) returns (r: seq<string>)
    ensures r == notes + NonEmptyTexts(found)
  {
    r := notes;
    for j := 0 to |found|
      invariant r == notes + NonEmptyTexts(found[..j])
    {
      var n := found[j];
      assert found[..j + 1][..j] == found[..j];
      if n.text.Some? && n.text.value != "" {
        r := r + [n.text.value];
      }
    }
    assert found[..|found|] == found;
  }

  /** `d` has a note child whose text is the non-empty `x`. */
  ghost predicate HoldsNote(d: Element, x: string)
  {
    x != "" && exists n :: n in d.children && n.tag == "note" && n.text == Some(x)
  }

  /** A note is collected for type `t` exactly when some `t` strictly below `e` holds it as a direct note child. */
  lemma NotesMember(e: Element, t: string, x: string)
    ensures x in NotesOfTypes(e, [t]) <==> exists d :: d in Descendants(e) && d.tag == t && HoldsNote(d, x)
  {
    assert NotesOfTypes(e, [t]) == NonEmptyTexts(FindAllNotes(e, t)) by {
      assert [t][..0] == [];
    }
    var ds := Tagged(Descendants(e), t);
    NonEmptyTextsMember(FindAllNotes(e, t), x);
    if x in NotesOfTypes(e, [t]) {
      var n :| n in NoteChildren(ds) && n.text == Some(x);
      var d :| d in ds && n in d.children;
      assert HoldsNote(d, x);
    }
    if exists d :: d in Descendants(e) && d.tag == t && HoldsNote(d, x) {
      var d :| d in Descendants(e) && d.tag == t && HoldsNote(d, x);
      var n :| n in d.children && n.tag == "note" && n.text == Some(x);
      assert n in NoteChildren(ds);
    }
  }

  /**
   * With `.//note/note`, a note is collected only when it sits inside another note: notes
   * that are plain children of an `includes` or `excludes` element are never collected.
   */
  lemma FlatNotesIgnored(x: Element)
    requires forall c :: c in x.children ==> c.children == []
    ensures ExtractedNotes(Some(x), ["note"]) == None
  {
    LeavesDescendants(x.children);
    if NotesOfTypes(x, ["note"]) != [] {
      var s := NotesOfTypes(x, ["note"])[0];
      NotesMember(x, "note", s);
      assert false;
    }
  }

  /** Notes of the `t` elements below a descendant are also notes of the `t` elements below the ancestor. */
  lemma NestedNotesCollected(e: Element, d: Element, t: string, x: string)
    requires d in Descendants(e) && x in NotesOfTypes(d, [t])
    ensures x in NotesOfTypes(e, [t])
  {
    NotesMember(d, t, x);
    var u :| u in Descendants(d) && u.tag == t && HoldsNote(u, x);
    DescendantsTransitive(e, d, u);
    NotesMember(e, t, x);
  }

  /** The dictionary `process_diagnostic_code` builds; the optional keys are absent when their list is empty. */
  datatype DiagRecord = DiagRecord(
    code: string,
    desc: string,
    includes: Option<seq<string>>,
    excludes1: Option<seq<string>>,
    excludes2: Option<seq<string>>)

  function OrEmpty(o: Option<seq<string>>): seq<string>
  {
    if o.Some? then o.value else []
  }

  /** `e` is a present element with a present, non-empty text. */
  predicate HasText(e: Option<Element>)
  {
    e.Some? && e.value.text.Some? && e.value.text.value != ""
  }

  /** The notes `process_diagnostic_code` puts under `includes`: those of the includes child, then the inclusion terms. */
  function IncludedNotes(e: Element): seq<string>
  {
    var includesElem := Find(e, "includes");
    (if includesElem.Some? then OrEmpty(ExtractedNotes(includesElem, ["note"])) else [])
      + OrEmpty(ExtractedNotes(Some(e), ["inclusionTerm"]))
  }

  /**
   * `process_diagnostic_code(diag_elem)`. A missing `name` or `desc` child raises AttributeError
   * (`None.text`); an empty text on either gives None; otherwise the record.
   */
  function ProcessDiagnosticCode(e: Element): (r: Result<Option<DiagRecord>>)
    ensures r.Raised? <==> Find(e, "name").None? || Find(e, "desc").None?
    ensures r.Raised? ==> r.error == AttributeError
    ensures r == Ok(None) <==> Find(e, "name").Some? && Find(e, "desc").Some?
                               && !(HasText(Find(e, "name")) && HasText(Find(e, "desc")))
    ensures r.Ok? && r.value.Some? ==>
      var rec := r.value.value;
      && HasText(Find(e, "name")) && rec.code == Find(e, "name").value.text.value
      && HasText(Find(e, "desc")) && rec.desc == Find(e, "desc").value.text.value
      && (rec.includes.Some? ==> rec.includes.value != [])
      && (rec.excludes1.Some? ==> rec.excludes1.value != [])
      && (rec.excludes2.Some? ==> rec.excludes2.value != [])
  {
    var name := Find(e, "name");
    if name.None? then Raised(AttributeError)
    else
      var desc := Find(e, "desc");
      if desc.None? then Raised(AttributeError)
      else if !HasText(name) || !HasText(desc) then Ok(None)
      else
        var includes := IncludedNotes(e);
        Ok(Some(DiagRecord(
          name.value.text.value,
          desc.value.text.value,
          if includes == [] then None else Some(includes),
          ExtractedNotes(Find(e, "excludes1"), ["note"]),
          ExtractedNotes(Find(e, "excludes2"), ["note"]))))
  }

  /** An `excludes1` child holding only flat notes leaves the record without `excludes_1`. */
  lemma FlatExcludesDropped(e: Element, rec: DiagRecord)
    requires ProcessDiagnosticCode(e) == Ok(Some(rec))
    requires Find(e, "excludes1").Some?
    requires forall c :: c in Find(e, "excludes1").value.children ==> c.children == []
    ensures rec.excludes1 == None
  {
    FlatNotesIgnored(Find(e, "excludes1").value);
  }

  /** A diag's `includes` also gathers the inclusion terms of the diags nested below it. */
  lemma NestedInclusionTermsIncluded(e: Element, rec: DiagRecord, d: Element, x: string)
    requires ProcessDiagnosticCode(e) == Ok(Some(rec))
    requires d in DescendantDiags(e) && x in NotesOfTypes(d, ["inclusionTerm"])
    ensures rec.includes.Some? && x in rec.includes.value
  {
    NestedTermsInIncludedNotes(e, d, x);
    RecordIncludes(e, rec);
  }

  lemma NestedTermsInIncludedNotes(e: Element, d: Element, x: string)
    requires d in DescendantDiags(e) && x in NotesOfTypes(d, ["inclusionTerm"])
    ensures x in IncludedNotes(e)
  {
    NestedNotesCollected(e, d, "inclusionTerm", x);
    assert x in OrEmpty(ExtractedNotes(Some(e), ["inclusionTerm"]));
  }

  /** The `includes` of a record is the included notes, None when there are none. */
  lemma RecordIncludes(e: Element, rec: DiagRecord)
    requires ProcessDiagnosticCode(e) == Ok(Some(rec))
    ensures rec.includes == if IncludedNotes(e) == [] then None else Some(IncludedNotes(e))
  {
  }

  /** The record a diag contributes by itself: none for a non-diag or an empty diag. */
  function Own(e: Element): (r: Result<seq<DiagRecord>>)
    ensures r.Ok? ==> |r.value| <= 1
    ensures r.Raised? ==> e.tag == "diag" && ProcessDiagnosticCode(e).Raised?
  {
    if e.tag != "diag" then Ok([])
    else
      match ProcessDiagnosticCode(e)
      case Raised(err) => Raised(err)
      case Ok(None) => Ok([])
      case Ok(Some(rec)) => Ok([rec])
  }

  /** `d` is a diag whose own record is `x`. */
  ghost predicate Emits(d: Element, x: DiagRecord)
  {
    d.tag == "diag" && ProcessDiagnosticCode(d) == Ok(Some(x))
  }

  lemma OwnMember(e: Element, x: DiagRecord)
    requires Own(e).Ok?
    ensures x in Own(e).value <==> Emits(e, x)
  {
  }

  // ---------------------------------------------------------------------------------------
  // Module-level `process_element`: a diag's record, then `process_element` of every diag
  // anywhere below it (`.//diag`), so a diag below m diag ancestors is visited 2^m times.
  // ---------------------------------------------------------------------------------------

  /** What module-level `process_element(e)` returns, or the exception it raises. */
  function Processed(e: Element): Result<seq<DiagRecord>>
    decreases e, 1
  {
    DescendantDiagsSmaller(e);
    match Own(e)
    case Raised(err) => Raised(err)
    case Ok(own) =>
      match ProcessedAll(DescendantDiags(e), e)
      case Raised(err) => Raised(err)
      case Ok(rest) => Ok(own + rest)
  }

  /** `process_element` applied to each of `ds` in turn, the lists concatenated; the first exception wins. */
  function ProcessedAll(ds: seq<Element>, ghost parent: Element): Result<seq<DiagRecord>>
    requires forall i :: 0 <= i < |ds| ==> ds[i] < parent
    decreases parent, 0, |ds|
  {
    if ds == [] then Ok([])
    else
      match ProcessedAll(ds[..|ds| - 1], parent)
      case Raised(err) => Raised(err)
      case Ok(front) =>
        match Processed(ds[|ds| - 1])
        case Raised(err) => Raised(err)
        case Ok(back) => Ok(front + back)
  }

  /** Once a prefix raises, the whole sequence raises the same exception. */
  lemma {:induction false} ProcessedAllPrefixRaised(ds: seq<Element>, parent: Element, i: nat)
    requires forall i :: 0 <= i < |ds| ==> ds[i] < parent
    requires i <= |ds| && ProcessedAll(ds[..i], parent).Raised?
    ensures ProcessedAll(ds, parent) == ProcessedAll(ds[..i], parent)
    decreases |ds|
  {
    if i < |ds| {
      var front := ds[..|ds| - 1];
      assert front[..i] == ds[..i];
      ProcessedAllPrefixRaised(front, parent, i);
    } else {
      assert ds[..i] == ds;
    }
  }

  lemma ProcessedJoin(e: Element, own: seq<DiagRecord>, rest: seq<DiagRecord>)
    requires forall i :: 0 <= i < |DescendantDiags(e)| ==> DescendantDiags(e)[i] < e
    requires Own(e) == Ok(own) && ProcessedAll(DescendantDiags(e), e) == Ok(rest)
    ensures Processed(e) == Ok(own + rest)
  {
  }

  lemma ProcessedAllStep(ds: seq<Element>, parent: Element, i: nat, front: seq<DiagRecord>)
    requires forall i :: 0 <= i < |ds| ==> ds[i] < parent
    requires i < |ds| && ProcessedAll(ds[..i], parent) == Ok(front)
    ensures ProcessedAll(ds[..i + 1], parent)
         == if Processed(ds[i]).Raised? then Raised(Processed(ds[i]).error) else Ok(front + Processed(ds[i]).value)
  {
    assert ds[..i + 1][..i] == ds[..i];
  }

  lemma ProcessedRaised(e: Element)
    requires forall i :: 0 <= i < |DescendantDiags(e)| ==> DescendantDiags(e)[i] < e
    requires Own(e).Ok? && ProcessedAll(DescendantDiags(e), e).Raised?
    ensures Processed(e) == ProcessedAll(DescendantDiags(e), e)
  {
  }

  /** Module-level `process_element(element)`. */
  method ProcessElement(e: Element) returns (r: Result<seq<DiagRecord>>)
    ensures r == Processed(e)
    decreases e, 1
  {
    var codes := OwnCodes(e);
    if codes.Raised? {
      return Raised(codes.error);
    }
    DescendantDiagsSmaller(e);
    var rest := ProcessEach(DescendantDiags(e), e);
    if rest.Raised? {
      ProcessedRaised(e);
      return Raised(rest.error);
    }
    ProcessedJoin(e, codes.value, rest.value);
    return Ok(codes.value + rest.value);
  }

  /** The first half of `process_element`: the element's own record, if it is a diag that has one. */
  method OwnCodes(e: Element) returns (r: Result<seq<DiagRecord>>)
    ensures r == Own(e)
  {
    var codes: seq<DiagRecord> := [];
    if e.tag == "diag" {
      var codeData := ProcessDiagnosticCode(e);
      match codeData
      case Raised(err) =>
        return Raised(err);
      case Ok(None) =>
      case Ok(Some(rec)) =>
        codes := codes + [rec];
        assert codes == [rec];
    }
    return Ok(codes);
  }

  /** The loop of `process_element`: `process_element` of each of `ds`, the lists concatenated. */
  method ProcessEach(ds: seq<Element>, ghost parent: Element) returns (r: Result<seq<DiagRecord>>)
    requires forall i :: 0 <= i < |ds| ==> ds[i] < parent
    ensures r == ProcessedAll(ds, parent)
    decreases parent, 0
  {
    var codes: seq<DiagRecord> := [];
    for i := 0 to |ds|
      invariant ProcessedAll(ds[..i], parent) == Ok(codes)
    {
      var sub := ProcessElement(ds[i]);
      ProcessedAllStep(ds, parent, i, codes);
      if sub.Raised? {
        ProcessedAllPrefixRaised(ds, parent, i + 1);
        return Raised(sub.error);
      }
      codes := codes + sub.value;
    }
    assert ds[..|ds|] == ds;
    return Ok(codes);
  }

  /** Every diag in the subtree of `e` (`e` itself when it is a diag) is processed without raising. */
  ghost predicate SubtreeLoads(e: Element)
  {
    && (e.tag == "diag" ==> ProcessDiagnosticCode(e).Ok?)
    && forall d :: d in DescendantDiags(e) ==> ProcessDiagnosticCode(d).Ok?
  }

  lemma {:induction false} ProcessedAllOk(ds: seq<Element>, parent: Element)
    requires forall i :: 0 <= i < |ds| ==> ds[i] < parent
    ensures ProcessedAll(ds, parent).Ok? <==> forall d :: d in ds ==> Processed(d).Ok?
    decreases |ds|
  {
    if ds != [] {
      var front := ds[..|ds| - 1];
      var last := ds[|ds| - 1];
      ProcessedAllOk(front, parent);
      assert ProcessedAll(ds, parent).Ok? <==> ProcessedAll(front, parent).Ok? && Processed(last).Ok?;
      if forall d :: d in ds ==> Processed(d).Ok? {
        assert forall d :: d in front ==> d in ds;
        assert last in ds;
      } else {
        var d :| d in ds && !Processed(d).Ok?;
        assert d in front || d == last;
      }
    }
  }

  /** `process_element(e)` returns normally exactly when no diag of its subtree lacks a name or desc. */
  lemma {:induction false} ProcessedOkIff(e: Element)
    ensures Processed(e).Ok? <==> SubtreeLoads(e)
    decreases e
  {
    DescendantDiagsSmaller(e);
    var ds := DescendantDiags(e);
    ProcessedAllOk(ds, e);
    forall d | d in ds
      ensures Processed(d).Ok? <==> SubtreeLoads(d)
    {
      ProcessedOkIff(d);
    }
    if forall d :: d in ds ==> ProcessDiagnosticCode(d).Ok? {
      forall d | d in ds
        ensures SubtreeLoads(d)
      {
        SubtreeLoadsBelow(e, d);
      }
    }
  }

  /** When every diag below `e` loads, so does the subtree of each of them. */
  lemma SubtreeLoadsBelow(e: Element, d: Element)
    requires d in DescendantDiags(e)
    requires forall x :: x in DescendantDiags(e) ==> ProcessDiagnosticCode(x).Ok?
    ensures SubtreeLoads(d)
  {
    forall x | x in DescendantDiags(d)
      ensures x in DescendantDiags(e)
    {
      DescendantsTransitive(e, d, x);
    }
  }

  lemma {:induction false} ProcessedAllErrors(ds: seq<Element>, parent: Element)
    requires forall i :: 0 <= i < |ds| ==> ds[i] < parent
    ensures ProcessedAll(ds, parent).Raised? ==> ProcessedAll(ds, parent).error == AttributeError
    decreases parent, 0, |ds|
  {
    if ds != [] {
      ProcessedAllErrors(ds[..|ds| - 1], parent);
      ProcessedErrors(ds[|ds| - 1]);
    }
  }

  /** The only exception `process_element` lets through is the AttributeError of a diag without name or desc. */
  lemma {:induction false} ProcessedErrors(e: Element)
    ensures Processed(e).Raised? ==> Processed(e).error == AttributeError
    decreases e, 1
  {
    DescendantDiagsSmaller(e);
    ProcessedAllErrors(DescendantDiags(e), e);
  }

  /** Everything `process_element` collects from `ds` comes from `process_element` of one of them, and all of it does. */
  lemma {:induction false} ProcessedAllMember(ds: seq<Element>, parent: Element, x: DiagRecord)
    requires forall i :: 0 <= i < |ds| ==> ds[i] < parent
    requires ProcessedAll(ds, parent).Ok?
    ensures x in ProcessedAll(ds, parent).value <==> exists d :: d in ds && Processed(d).Ok? && x in Processed(d).value
    decreases |ds|
  {
    if ds != [] {
      var front := ds[..|ds| - 1];
      var last := ds[|ds| - 1];
      assert ProcessedAll(front, parent).Ok? && Processed(last).Ok?;
      ProcessedAllMember(front, parent, x);
      assert ProcessedAll(ds, parent).value == ProcessedAll(front, parent).value + Processed(last).value;
      if x in ProcessedAll(front, parent).value {
        var d :| d in front && Processed(d).Ok? && x in Processed(d).value;
        assert d in ds;
      }
      if exists d :: d in ds && Processed(d).Ok? && x in Processed(d).value {
        var d :| d in ds && Processed(d).Ok? && x in Processed(d).value;
        assert d in front || d == last;
      }
    }
  }

  /**
   * `process_element(e)` collects exactly the records of `e` and of the diags below it: every
   * record comes from one of them, and none of them is missed.
   */
  lemma {:induction false} ProcessedMember(e: Element, x: DiagRecord)
    requires Processed(e).Ok?
    ensures x in Processed(e).value <==> Emits(e, x) || exists d :: d in DescendantDiags(e) && Emits(d, x)
    decreases e
  {
    DescendantDiagsSmaller(e);
    var ds := DescendantDiags(e);
    assert Own(e).Ok? && ProcessedAll(ds, e).Ok?;
    assert Processed(e).value == Own(e).value + ProcessedAll(ds, e).value;
    ProcessedAllOk(ds, e);
    ProcessedAllMember(ds, e, x);
    OwnMember(e, x);
    if x in ProcessedAll(ds, e).value {
      var d :| d in ds && Processed(d).Ok? && x in Processed(d).value;
      ProcessedMember(d, x);
      if !Emits(d, x) {
        var u :| u in DescendantDiags(d) && Emits(u, x);
        DescendantsTransitive(e, d, u);
        assert u in ds;
      }
    }
    if exists d :: d in ds && Emits(d, x) {
      var d :| d in ds && Emits(d, x);
      assert Processed(d).Ok?;
      ProcessedMember(d, x);
      assert x in ProcessedAll(ds, e).value;
    }
  }

  // ---------------------------------------------------------------------------------------
  // `parse_icd10_xml`: its inner `process_element` appends a diag's record to the enclosing
  // list, then visits only the diag's direct diag children; a non-diag visits all children.
  // ---------------------------------------------------------------------------------------

  /** The records the inner `process_element(e)` appends, in order, or the exception it raises. */
  function Parsed(e: Element): Result<seq<DiagRecord>>
    decreases e, 1
  {
    ChildDiagsSmaller(e);
    match Own(e)
    case Raised(err) => Raised(err)
    case Ok(own) =>
      match ParsedAll(if e.tag == "diag" then ChildDiags(e) else e.children, e)
      case Raised(err) => Raised(err)
      case Ok(rest) => Ok(own + rest)
  }

  /** The inner `process_element` applied to each of `cs` in turn. */
  function ParsedAll(cs: seq<Element>, ghost parent: Element): Result<seq<DiagRecord>>
    requires forall i :: 0 <= i < |cs| ==> cs[i] < parent
    decreases parent, 0, |cs|
  {
    if cs == [] then Ok([])
    else
      match ParsedAll(cs[..|cs| - 1], parent)
      case Raised(err) => Raised(err)
      case Ok(front) =>
        match Parsed(cs[|cs| - 1])
        case Raised(err) => Raised(err)
        case Ok(back) => Ok(front + back)
  }

  lemma {:induction false} ParsedAllPrefixRaised(cs: seq<Element>, parent: Element, i: nat)
    requires forall i :: 0 <= i < |cs| ==> cs[i] < parent
    requires i <= |cs| && ParsedAll(cs[..i], parent).Raised?
    ensures ParsedAll(cs, parent) == ParsedAll(cs[..i], parent)
    decreases |cs|
  {
    if i < |cs| {
      var front := cs[..|cs| - 1];
      assert front[..i] == cs[..i];
      ParsedAllPrefixRaised(front, parent, i);
    } else {
      assert cs[..i] == cs;
    }
  }

  lemma ParsedAllStep(cs: seq<Element>, parent: Element, i: nat, front: seq<DiagRecord>)
    requires forall i :: 0 <= i < |cs| ==> cs[i] < parent
    requires i < |cs| && ParsedAll(cs[..i], parent) == Ok(front)
    ensures ParsedAll(cs[..i + 1], parent)
         == if Parsed(cs[i]).Raised? then Raised(Parsed(cs[i]).error) else Ok(front + Parsed(cs[i]).value)
  {
    assert cs[..i + 1][..i] == cs[..i];
  }

  lemma ParsedJoin(e: Element, own: seq<DiagRecord>, rest: seq<DiagRecord>)
    requires forall i :: 0 <= i < |ChildDiags(e)| ==> ChildDiags(e)[i] < e
    requires Own(e) == Ok(own) && ParsedAll(if e.tag == "diag" then ChildDiags(e) else e.children, e) == Ok(rest)
    ensures Parsed(e) == Ok(own + rest)
  {
  }

  lemma ParsedRaised(e: Element)
    requires forall i :: 0 <= i < |ChildDiags(e)| ==> ChildDiags(e)[i] < e
    requires Own(e).Ok? && ParsedAll(if e.tag == "diag" then ChildDiags(e) else e.children, e).Raised?
    ensures Parsed(e) == ParsedAll(if e.tag == "diag" then ChildDiags(e) else e.children, e)
  {
  }

  lemma SeqAssoc(a: seq<DiagRecord>, b: seq<DiagRecord>, c: seq<DiagRecord>)
    ensures (a + b) + c == a + (b + c)
  {
  }

  /** The enclosing `codes` list of `parse_icd10_xml`, which its inner `process_element` appends to. */
  class Collector {
    var codes: seq<DiagRecord>

    constructor ()
      ensures codes == []
    {
      codes := [];
    }

    /** The inner `process_element(element)`: appends the records of the walk from `e` to `codes`. */
    method Visit(e: Element) returns (r: Result<()>)
      modifies this
      ensures r.Ok? <==> Parsed(e).Ok?
      ensures r.Raised? ==> Parsed(e) == Raised(r.error)
      ensures r.Ok? ==> codes == old(codes) + Parsed(e).value
      decreases e, 1
    {
      ghost var own: seq<DiagRecord> := [];
      if e.tag == "diag" {
        var codeData := ProcessDiagnosticCode(e);
        if codeData.Raised? {
          assert Own(e) == Raised(codeData.error);
          return Raised(codeData.error);
        }
        if codeData.value.Some? {
          codes := codes + [codeData.value.value];
          own := [codeData.value.value];
        }
      }
      assert codes == old(codes) + own;
      assert Own(e) == Ok(own);
      ChildDiagsSmaller(e);
      var cs := if e.tag == "diag" then ChildDiags(e) else e.children;
      ghost var before := codes;
      var visited := VisitEach(cs, e);
      if visited.Raised? {
        ParsedRaised(e);
        return visited;
      }
      ghost var rest := ParsedAll(cs, e).value;
      ParsedJoin(e, own, rest);
      ghost var start := old(codes);
      assert codes == before + rest;
      assert before == start + own;
      SeqAssoc(start, own, rest);
      return Ok(());
    }

    /** The loops of the inner `process_element`: visits each of `cs` in turn. */
    method VisitEach(cs: seq<Element>, ghost parent: Element) returns (r: Result<()>)
      requires forall i :: 0 <= i < |cs| ==> cs[i] < parent
      modifies this
      ensures r.Ok? <==> ParsedAll(cs, parent).Ok?
      ensures r.Raised? ==> ParsedAll(cs, parent) == Raised(r.error)
      ensures r.Ok? ==> codes == old(codes) + ParsedAll(cs, parent).value
      decreases parent, 0
    {
      ghost var rest: seq<DiagRecord> := [];
      for i := 0 to |cs|
        invariant codes == old(codes) + rest
        invariant ParsedAll(cs[..i], parent) == Ok(rest)
      {
        ghost var before := codes;
        var sub := Visit(cs[i]);
        ParsedAllStep(cs, parent, i, rest);
        if sub.Raised? {
          ParsedAllPrefixRaised(cs, parent, i + 1);
          return sub;
        }
        assert codes == before + Parsed(cs[i]).value;
        SeqAssoc(old(codes), rest, Parsed(cs[i]).value);
        rest := rest + Parsed(cs[i]).value;
      }
      assert cs[..|cs|] == cs;
      return Ok(());
    }
  }

  /** `parse_icd10_xml` from the parsed root. */
  method ParseIcd10Xml(root: Element) returns (r: Result<seq<DiagRecord>>)
    ensures r == Parsed(root)
  {
    var collector := new Collector();
    var visited := collector.Visit(root);
    if visited.Raised? {
      return Raised(visited.error);
    }
    assert [] + Parsed(root).value == Parsed(root).value;
    return Ok(collector.codes);
  }

  lemma {:induction false} ParsedAllSound(cs: seq<Element>, parent: Element, x: DiagRecord)
    requires forall i :: 0 <= i < |cs| ==> cs[i] < parent
    requires ParsedAll(cs, parent).Ok? && x in ParsedAll(cs, parent).value
    ensures exists c :: c in cs && Parsed(c).Ok? && x in Parsed(c).value
    decreases |cs|
  {
    var front := cs[..|cs| - 1];
    var last := cs[|cs| - 1];
    assert ParsedAll(front, parent).Ok? && Parsed(last).Ok?;
    assert ParsedAll(cs, parent).value == ParsedAll(front, parent).value + Parsed(last).value;
    if x in ParsedAll(front, parent).value {
      ParsedAllSound(front, parent, x);
      var c :| c in front && Parsed(c).Ok? && x in Parsed(c).value;
      assert c in cs;
    } else {
      assert last in cs;
    }
  }

  /** Every record `parse_icd10_xml` collects from `e` is the record of `e` or of a diag below it. */
  lemma {:induction false} ParsedSound(e: Element, x: DiagRecord)
    requires Parsed(e).Ok? && x in Parsed(e).value
    ensures Emits(e, x) || exists d :: d in DescendantDiags(e) && Emits(d, x)
    decreases e
  {
    ChildDiagsSmaller(e);
    var cs := if e.tag == "diag" then ChildDiags(e) else e.children;
    assert Own(e).Ok? && ParsedAll(cs, e).Ok?;
    assert Parsed(e).value == Own(e).value + ParsedAll(cs, e).value;
    OwnMember(e, x);
    if x in ParsedAll(cs, e).value {
      ParsedAllSound(cs, e, x);
      var c :| c in cs && Parsed(c).Ok? && x in Parsed(c).value;
      assert c in e.children;
      ChildIsDescendant(e.children, c);
      ParsedSound(c, x);
      if !Emits(c, x) {
        var d :| d in DescendantDiags(c) && Emits(d, x);
        DescendantsTransitive(e, c, d);
        assert d in DescendantDiags(e);
      }
    }
  }

  /** The number of diags in the subtree rooted at `e`, `e` included. */
  function DiagCount(e: Element): nat
  {
    |Tagged([e], "diag")| + |DescendantDiags(e)|
  }

  /** Keeping only the diag roots of a forest keeps at most as many diags below them. */
  lemma {:induction false} DiagRootsFewer(cs: seq<Element>)
    ensures |Tagged(DescendantsOf(Tagged(cs, "diag")), "diag")| <= |Tagged(DescendantsOf(cs), "diag")|
    decreases |cs|
  {
    if cs != [] {
      var front := cs[..|cs| - 1];
      var last := cs[|cs| - 1];
      DiagRootsFewer(front);
      var kept := Tagged(front, "diag");
      assert DescendantsOf(cs) == DescendantsOf(front) + [last] + Descendants(last);
      TaggedAppend(DescendantsOf(front) + [last], Descendants(last), "diag");
      TaggedAppend(DescendantsOf(front), [last], "diag");
      if last.tag == "diag" {
        assert Tagged(cs, "diag") == kept + [last];
        assert (kept + [last])[..|kept|] == kept;
        assert DescendantsOf(kept + [last]) == DescendantsOf(kept) + [last] + Descendants(last);
        TaggedAppend(DescendantsOf(kept) + [last], Descendants(last), "diag");
        TaggedAppend(DescendantsOf(kept), [last], "diag");
      } else {
        assert Tagged(cs, "diag") == kept;
      }
    }
  }

  lemma {:induction false} ParsedAllBound(cs: seq<Element>, parent: Element)
    requires forall i :: 0 <= i < |cs| ==> cs[i] < parent
    requires ParsedAll(cs, parent).Ok?
    ensures |ParsedAll(cs, parent).value| <= |Tagged(DescendantsOf(cs), "diag")|
    decreases parent, 0, |cs|
  {
    if cs != [] {
      var front := cs[..|cs| - 1];
      var last := cs[|cs| - 1];
      assert ParsedAll(front, parent).Ok? && Parsed(last).Ok?;
      assert ParsedAll(cs, parent).value == ParsedAll(front, parent).value + Parsed(last).value;
      ParsedAllBound(front, parent);
      ParsedBound(last);
      assert DescendantsOf(cs) == DescendantsOf(front) + [last] + Descendants(last);
      TaggedAppend(DescendantsOf(front) + [last], Descendants(last), "diag");
      TaggedAppend(DescendantsOf(front), [last], "diag");
    }
  }

  /** `parse_icd10_xml` collects no more records than there are diags in the tree. */
  lemma {:induction false} ParsedBound(e: Element)
    requires Parsed(e).Ok?
    ensures |Parsed(e).value| <= DiagCount(e)
    decreases e, 1
  {
    ChildDiagsSmaller(e);
    var cs := if e.tag == "diag" then ChildDiags(e) else e.children;
    assert Own(e).Ok? && ParsedAll(cs, e).Ok?;
    assert Parsed(e).value == Own(e).value + ParsedAll(cs, e).value;
    ParsedAllBound(cs, e);
    if e.tag == "diag" {
      DiagRootsFewer(e.children);
      assert Tagged([e], "diag") == [e];
    } else {
      assert Tagged([e], "diag") == [];
    }
  }

  /** A diag's own record comes first, before anything collected below it. */
  lemma ParsedFirst(e: Element, rec: DiagRecord)
    requires Emits(e, rec) && Parsed(e).Ok?
    ensures |Parsed(e).value| >= 1 && Parsed(e).value[0] == rec
  {
    ChildDiagsSmaller(e);
    assert Own(e) == Ok([rec]);
    assert Parsed(e).value == [rec] + ParsedAll(ChildDiags(e), e).value;
  }

  /** The diags the inner `process_element(e)` reaches, in the order it reaches them. */
  ghost function Visited(e: Element): seq<Element>
    decreases e, 1
  {
    ChildDiagsSmaller(e);
    if e.tag == "diag" then [e] + VisitedAll(ChildDiags(e), e) else VisitedAll(e.children, e)
  }

  ghost function VisitedAll(cs: seq<Element>, parent: Element): seq<Element>
    requires forall i :: 0 <= i < |cs| ==> cs[i] < parent
    decreases parent, 0, |cs|
  {
    if cs == [] then [] else VisitedAll(cs[..|cs| - 1], parent) + Visited(cs[|cs| - 1])
  }

  /** The own records of `ds`, concatenated in order (an element that raises contributes none). */
  ghost function Emitted(ds: seq<Element>): seq<DiagRecord>
  {
    if ds == [] then []
    else
      var last := ds[|ds| - 1];
      Emitted(ds[..|ds| - 1]) + (if Own(last).Ok? then Own(last).value else [])
  }

  lemma {:induction false} EmittedAppend(a: seq<Element>, b: seq<Element>)
    ensures Emitted(a + b) == Emitted(a) + Emitted(b)
    decreases |b|
  {
    if b == [] {
      assert a + b == a;
    } else {
      var front := b[..|b| - 1];
      assert (a + b)[..|a + b| - 1] == a + front;
      EmittedAppend(a, front);
    }
  }

  /**
   * `a` is `b` with some positions deleted: each position of `b` supplies at most one element of
   * `a`, in order, so an element occurring once in `b` occurs at most once in `a`.
   */
  ghost predicate Subsequence(a: seq<Element>, b: seq<Element>)
    decreases |b|
  {
    || a == []
    || (&& b != []
        && (|| (a[|a| - 1] == b[|b| - 1] && Subsequence(a[..|a| - 1], b[..|b| - 1]))
            || Subsequence(a, b[..|b| - 1])))
  }

  lemma {:induction false} SubsequenceExtend(a: seq<Element>, b: seq<Element>, c: seq<Element>)
    requires Subsequence(a, b)
    ensures Subsequence(a, b + c)
    decreases |c|
  {
    if c == [] {
      assert b + c == b;
    } else {
      var front := c[..|c| - 1];
      SubsequenceExtend(a, b, front);
      assert (b + c)[..|b + c| - 1] == b + front;
    }
  }

  lemma {:induction false} SubsequenceConcat(a1: seq<Element>, b1: seq<Element>, a2: seq<Element>, b2: seq<Element>)
    requires Subsequence(a1, b1) && Subsequence(a2, b2)
    ensures Subsequence(a1 + a2, b1 + b2)
    decreases |b2|
  {
    if a2 == [] {
      assert a1 + a2 == a1;
      SubsequenceExtend(a1, b1, b2);
    } else {
      var a2f, b2f := a2[..|a2| - 1], b2[..|b2| - 1];
      assert (b1 + b2)[..|b1 + b2| - 1] == b1 + b2f;
      if a2[|a2| - 1] == b2[|b2| - 1] && Subsequence(a2f, b2f) {
        SubsequenceConcat(a1, b1, a2f, b2f);
        assert (a1 + a2)[..|a1 + a2| - 1] == a1 + a2f;
      } else {
        SubsequenceConcat(a1, b1, a2, b2f);
      }
    }
  }

  /** The records collected from `e` are the own records of the diags it reaches, in that order. */
  lemma {:induction false} ParsedVisits(e: Element)
    requires Parsed(e).Ok?
    ensures Parsed(e).value == Emitted(Visited(e))
    decreases e, 1
  {
    ChildDiagsSmaller(e);
    var cs := if e.tag == "diag" then ChildDiags(e) else e.children;
    assert Own(e).Ok? && ParsedAll(cs, e).Ok?;
    assert Parsed(e).value == Own(e).value + ParsedAll(cs, e).value;
    ParsedAllVisits(cs, e);
    if e.tag == "diag" {
      EmittedAppend([e], VisitedAll(cs, e));
      assert Emitted([e]) == Own(e).value;
    }
  }

  lemma {:induction false} ParsedAllVisits(cs: seq<Element>, parent: Element)
    requires forall i :: 0 <= i < |cs| ==> cs[i] < parent
    requires ParsedAll(cs, parent).Ok?
    ensures ParsedAll(cs, parent).value == Emitted(VisitedAll(cs, parent))
    decreases parent, 0, |cs|
  {
    if cs != [] {
      var front, last := cs[..|cs| - 1], cs[|cs| - 1];
      assert ParsedAll(front, parent).Ok? && Parsed(last).Ok?;
      ParsedAllVisits(front, parent);
      ParsedVisits(last);
      EmittedAppend(VisitedAll(front, parent), Visited(last));
    }
  }

  lemma SubsequenceSingle(x: Element)
    ensures Subsequence([x], [x])
  {
    assert [x][..0] == [];
  }

  /** The diags reached from `e` are a subsequence, by position, of the pre-order diags of its subtree. */
  lemma {:induction false} VisitedInPreOrder(e: Element)
    ensures Subsequence(Visited(e), Tagged([e] + Descendants(e), "diag"))
    decreases e, 1
  {
    ChildDiagsSmaller(e);
    if e.tag == "diag" {
      assert ChildDiags(e) == Tagged(e.children, "diag");
      VisitedDiagsInPreOrder(e.children, e);
      DiagVisitedInPreOrder(e);
    } else {
      VisitedAllInPreOrder(e.children, e);
      OtherVisitedInPreOrder(e);
    }
  }

  /** The step of `VisitedInPreOrder` at a diag: it comes first, then the diags below it. */
  lemma DiagVisitedInPreOrder(e: Element)
    requires e.tag == "diag"
    requires forall i :: 0 <= i < |ChildDiags(e)| ==> ChildDiags(e)[i] < e
    requires Subsequence(VisitedAll(ChildDiags(e), e), Tagged(Descendants(e), "diag"))
    ensures Subsequence(Visited(e), Tagged([e] + Descendants(e), "diag"))
  {
    TaggedAppend([e], Descendants(e), "diag");
    assert Visited(e) == [e] + VisitedAll(ChildDiags(e), e);
    assert Tagged([e], "diag") == [e];
    SubsequenceSingle(e);
    SubsequenceConcat([e], [e], VisitedAll(ChildDiags(e), e), Tagged(Descendants(e), "diag"));
  }

  /** The step of `VisitedInPreOrder` at any other element: only the diags below it count. */
  lemma OtherVisitedInPreOrder(e: Element)
    requires e.tag != "diag"
    requires forall i :: 0 <= i < |e.children| ==> e.children[i] < e
    requires Subsequence(VisitedAll(e.children, e), Tagged(DescendantsOf(e.children), "diag"))
    ensures Subsequence(Visited(e), Tagged([e] + Descendants(e), "diag"))
  {
    TaggedAppend([e], Descendants(e), "diag");
    assert Visited(e) == VisitedAll(e.children, e);
    assert Tagged([e], "diag") == [];
    assert Tagged([e] + Descendants(e), "diag") == Tagged(Descendants(e), "diag");
  }

  /** The pre-order diags below a forest split at its last tree. */
  lemma DescendantDiagsSnoc(cs: seq<Element>)
    requires cs != []
    ensures var front, last := cs[..|cs| - 1], cs[|cs| - 1];
      Tagged(DescendantsOf(cs), "diag") == Tagged(DescendantsOf(front), "diag") + Tagged([last] + Descendants(last), "diag")
  {
    var front, last := cs[..|cs| - 1], cs[|cs| - 1];
    assert DescendantsOf(cs) == DescendantsOf(front) + ([last] + Descendants(last));
    TaggedAppend(DescendantsOf(front), [last] + Descendants(last), "diag");
  }

  lemma TaggedSmaller(cs: seq<Element>, parent: Element)
    requires forall i :: 0 <= i < |cs| ==> cs[i] < parent
    ensures forall i :: 0 <= i < |Tagged(cs, "diag")| ==> Tagged(cs, "diag")[i] < parent
  {
    forall i | 0 <= i < |Tagged(cs, "diag")|
      ensures Tagged(cs, "diag")[i] < parent
    {
      assert Tagged(cs, "diag")[i] in cs;
    }
  }

  /** Visiting every tree of `cs` reaches a subsequence of the pre-order diags below `cs`. */
  lemma {:induction false} VisitedAllInPreOrder(cs: seq<Element>, parent: Element)
    requires forall i :: 0 <= i < |cs| ==> cs[i] < parent
    ensures Subsequence(VisitedAll(cs, parent), Tagged(DescendantsOf(cs), "diag"))
    decreases parent, 0, |cs|
  {
    if cs != [] {
      var front, last := cs[..|cs| - 1], cs[|cs| - 1];
      VisitedAllInPreOrder(front, parent);
      VisitedInPreOrder(last);
      DescendantDiagsSnoc(cs);
      SubsequenceConcat(VisitedAll(front, parent), Tagged(DescendantsOf(front), "diag"),
        Visited(last), Tagged([last] + Descendants(last), "diag"));
    }
  }

  /** Visiting only the diag trees of `cs` reaches a subsequence of the pre-order diags below `cs`. */
  lemma {:induction false} VisitedDiagsInPreOrder(cs: seq<Element>, parent: Element)
    requires forall i :: 0 <= i < |cs| ==> cs[i] < parent
    requires forall i :: 0 <= i < |Tagged(cs, "diag")| ==> Tagged(cs, "diag")[i] < parent
    ensures Subsequence(VisitedAll(Tagged(cs, "diag"), parent), Tagged(DescendantsOf(cs), "diag"))
    decreases parent, 0, |cs|
  {
    if cs != [] {
      var front, last := cs[..|cs| - 1], cs[|cs| - 1];
      TaggedSmaller(front, parent);
      VisitedDiagsInPreOrder(front, parent);
      DescendantDiagsSnoc(cs);
      if last.tag == "diag" {
        VisitedInPreOrder(last);
        DiagLastInPreOrder(cs, parent);
      } else {
        assert Tagged(cs, "diag") == Tagged(front, "diag");
        SubsequenceExtend(VisitedAll(Tagged(front, "diag"), parent), Tagged(DescendantsOf(front), "diag"),
          Tagged([last] + Descendants(last), "diag"));
      }
    }
  }

  /** The step of `VisitedDiagsInPreOrder` when the last tree of `cs` is a diag. */
  lemma DiagLastInPreOrder(cs: seq<Element>, parent: Element)
    requires cs != [] && cs[|cs| - 1].tag == "diag"
    requires AllBelow(Tagged(cs, "diag"), parent) && AllBelow(Tagged(cs[..|cs| - 1], "diag"), parent)
    requires Subsequence(VisitedAll(Tagged(cs[..|cs| - 1], "diag"), parent), Tagged(DescendantsOf(cs[..|cs| - 1]), "diag"))
    requires Subsequence(Visited(cs[|cs| - 1]), Tagged([cs[|cs| - 1]] + Descendants(cs[|cs| - 1]), "diag"))
    requires Tagged(DescendantsOf(cs), "diag")
      == Tagged(DescendantsOf(cs[..|cs| - 1]), "diag") + Tagged([cs[|cs| - 1]] + Descendants(cs[|cs| - 1]), "diag")
    ensures Subsequence(VisitedAll(Tagged(cs, "diag"), parent), Tagged(DescendantsOf(cs), "diag"))
  {
    var front, last := cs[..|cs| - 1], cs[|cs| - 1];
    var sel, selFront := Tagged(cs, "diag"), Tagged(front, "diag");
    assert sel == selFront + [last];
    assert sel[..|sel| - 1] == selFront;
    assert VisitedAll(sel, parent) == VisitedAll(selFront, parent) + Visited(last);
    SubsequenceConcat(VisitedAll(selFront, parent), Tagged(DescendantsOf(front), "diag"),
      Visited(last), Tagged([last] + Descendants(last), "diag"));
  }

  /** Every element of `s` is a proper part of `parent`. */
  ghost predicate AllBelow(s: seq<Element>, parent: Element)
  {
    forall i :: 0 <= i < |s| ==> s[i] < parent
  }

  /**
   * `parse_icd10_xml` emits each diag at most once: its records are the own records of the diags
   * it reaches, and those diags are a subsequence, by position, of the pre-order diags of the tree.
   */
  lemma ParsedOncePerDiag(e: Element)
    requires Parsed(e).Ok?
    ensures Parsed(e).value == Emitted(Visited(e))
    ensures Subsequence(Visited(e), Tagged([e] + Descendants(e), "diag"))
  {
    ParsedVisits(e);
    VisitedInPreOrder(e);
  }

  // ---------------------------------------------------------------------------------------
  // `alternative_parser`
  // ---------------------------------------------------------------------------------------

  /**
   * `alternative_parser`: runs module-level `process_element` on the root (and discards its
   * result), then one `process_diagnostic_code` entry, None included, per diag below the root.
   */
  method AlternativeParser(root: Element) returns (r: Result<seq<Option<DiagRecord>>>)
    ensures r.Ok? <==> SubtreeLoads(root)
    ensures r.Raised? ==> r.error == AttributeError
    ensures r.Ok? ==> |r.value| == |DescendantDiags(root)|
                      && forall i :: 0 <= i < |r.value| ==> ProcessDiagnosticCode(DescendantDiags(root)[i]) == Ok(r.value[i])
  {
    var processed := ProcessElement(root);
    ProcessedOkIff(root);
    if processed.Raised? {
      ProcessedErrors(root);
      return Raised(processed.error);
    }
    var nodes := DescendantDiags(root);
    assert forall i :: 0 <= i < |nodes| ==> ProcessDiagnosticCode(nodes[i]).Ok? by {
      assert forall i :: 0 <= i < |nodes| ==> nodes[i] in nodes;
    }
    var myCodes := ProcessEachDiag(nodes);
    return Ok(myCodes);
  }

  /** The loop of `alternative_parser`: `process_diagnostic_code` of each node, in order. */
  method ProcessEachDiag(nodes: seq<Element>) returns (myCodes: seq<Option<DiagRecord>>)
    requires forall i :: 0 <= i < |nodes| ==> ProcessDiagnosticCode(nodes[i]).Ok?
    ensures |myCodes| == |nodes|
    ensures forall i :: 0 <= i < |nodes| ==> ProcessDiagnosticCode(nodes[i]) == Ok(myCodes[i])
  {
    myCodes := [];
    for i := 0 to |nodes|
      invariant |myCodes| == i
      invariant forall j :: 0 <= j < i ==> ProcessDiagnosticCode(nodes[j]) == Ok(myCodes[j])
    {
      var codeData := ProcessDiagnosticCode(nodes[i]);
      myCodes := myCodes + [codeData.value];
    }
  }

  // ---------------------------------------------------------------------------------------
  // Worked trees: a chapter holding diag A01 with diag A01.1 nested directly or under a section.
  // ---------------------------------------------------------------------------------------

  /** A diag element with the given name and desc texts, followed by `extra` children. */
  function DiagElement(code: string, desc: string, extra: seq<Element>): Element
  {
    Element("diag", None, [Element("name", Some(code), []), Element("desc", Some(desc), [])] + extra)
  }

  /** Without any `t` below `e`, no note of type `t` is collected. */
  lemma NoNotesWithoutTag(e: Element, t: string)
    requires forall d :: d in Descendants(e) ==> d.tag != t
    ensures NotesOfTypes(e, [t]) == []
  {
    if NotesOfTypes(e, [t]) != [] {
      NotesMember(e, t, NotesOfTypes(e, [t])[0]);
    }
  }

  /** A diag with a name and a desc and none of the note-bearing children gives a record of just those two. */
  lemma PlainDiagRecord(code: string, desc: string, extra: seq<Element>)
    requires code != "" && desc != ""
    requires forall c :: c in extra ==> c.tag !in {"name", "desc", "includes", "excludes1", "excludes2"}
    requires forall d :: d in Descendants(DiagElement(code, desc, extra)) ==> d.tag != "inclusionTerm"
    ensures ProcessDiagnosticCode(DiagElement(code, desc, extra)) == Ok(Some(DiagRecord(code, desc, None, None, None)))
  {
    var e := DiagElement(code, desc, extra);
    DiagElementFinds(code, desc, extra);
    assert IncludedNotes(e) == [] by {
      NoNotesWithoutTag(e, "inclusionTerm");
    }
  }

  /** The name and desc children of a diag element are found; no note-bearing child is. */
  lemma DiagElementFinds(code: string, desc: string, extra: seq<Element>)
    requires forall c :: c in extra ==> c.tag !in {"name", "desc", "includes", "excludes1", "excludes2"}
    ensures var e := DiagElement(code, desc, extra);
      && Find(e, "name") == Some(Element("name", Some(code), []))
      && Find(e, "desc") == Some(Element("desc", Some(desc), []))
      && Find(e, "includes") == None && Find(e, "excludes1") == None && Find(e, "excludes2") == None
  {
    var e := DiagElement(code, desc, extra);
    assert e.children[0] == Element("name", Some(code), []);
    assert e.children[1..][0] == Element("desc", Some(desc), []);
    assert forall c :: c in e.children ==> c.tag !in {"includes", "excludes1", "excludes2"};
  }

  /** A diag with a name and a desc and nothing else has nothing below it but those two leaves. */
  lemma PlainLeafDiags(code: string, desc: string)
    ensures DescendantDiags(DiagElement(code, desc, [])) == []
  {
    var inner := DiagElement(code, desc, []);
    LeavesDescendants(inner.children);
    TaggedNone(inner.children, "diag");
  }

  /** An element with no diag below it: `process_element` gives just its own record. */
  lemma ProcessedLeaf(e: Element, own: seq<DiagRecord>)
    requires DescendantDiags(e) == [] && Own(e) == Ok(own)
    ensures Processed(e) == Ok(own)
  {
    DescendantDiagsSmaller(e);
    assert ProcessedAll([], e) == Ok([]);
    ProcessedJoin(e, own, []);
    assert own + [] == own;
  }

  /** `process_element` over one nested level: the outer record, then the inner diag's. */
  lemma ProcessedNested(outer: Element, inner: Element)
    requires DescendantDiags(outer) == [inner] && DescendantDiags(inner) == []
    requires Own(outer).Ok? && Own(inner).Ok?
    ensures Processed(outer) == Ok(Own(outer).value + Own(inner).value)
  {
    DescendantDiagsSmaller(outer);
    ProcessedLeaf(inner, Own(inner).value);
    ProcessedAllSingle(inner, outer);
    ProcessedJoin(outer, Own(outer).value, Own(inner).value);
  }

  /**
   * Above two nested diags, `process_element` finds both through `.//diag` and the outer one
   * finds the inner one again: the inner record is emitted twice.
   */
  lemma ProcessedRevisits(top: Element, outer: Element, inner: Element)
    requires DescendantDiags(top) == [outer, inner] && Own(top) == Ok([])
    requires DescendantDiags(outer) == [inner] && DescendantDiags(inner) == []
    requires Own(outer).Ok? && Own(inner).Ok?
    ensures Processed(top) == Ok(Own(outer).value + Own(inner).value + Own(inner).value)
  {
    var o, i := Own(outer).value, Own(inner).value;
    assert outer < top && inner < top by {
      DescendantDiagsSmaller(top);
      assert DescendantDiags(top)[0] == outer && DescendantDiags(top)[1] == inner;
    }
    ProcessedLeaf(inner, i);
    ProcessedNested(outer, inner);
    ProcessedAllPair(outer, inner, top);
    DescendantDiagsSmaller(top);
    ProcessedJoin(top, [], o + i + i);
    assert [] + (o + i + i) == o + i + i;
  }

  /** Inside a diag without diag children, `parse_icd10_xml` collects the diag's record alone. */
  lemma ParsedNoChildDiags(e: Element, own: seq<DiagRecord>)
    requires e.tag == "diag" && ChildDiags(e) == [] && Own(e) == Ok(own)
    ensures Parsed(e) == Ok(own)
  {
    ChildDiagsSmaller(e);
    assert ParsedAll([], e) == Ok([]);
    ParsedJoin(e, own, []);
    assert own + [] == own;
  }

  lemma ProcessedAllSingle(d: Element, parent: Element)
    requires d < parent
    ensures ProcessedAll([d], parent) == Processed(d)
  {
    assert [d][..0] == [];
    assert ProcessedAll([], parent) == Ok([]);
    if Processed(d).Ok? {
      assert [] + Processed(d).value == Processed(d).value;
    }
  }

  lemma ProcessedAllPair(a: Element, b: Element, parent: Element)
    requires a < parent && b < parent && Processed(a).Ok? && Processed(b).Ok?
    ensures ProcessedAll([a, b], parent) == Ok(Processed(a).value + Processed(b).value)
  {
    assert [a, b][..1] == [a];
    ProcessedAllSingle(a, parent);
  }

  /** The descendants of an element with the single child `c`. */
  lemma SingleChildDescendants(t: string, c: Element)
    ensures Descendants(Element(t, None, [c])) == [c] + Descendants(c)
  {
    assert [c][..0] == [];
    assert DescendantsOf([]) == [];
    assert [] + [c] + Descendants(c) == [c] + Descendants(c);
  }

  /** The diags below an element with the single child `c`. */
  lemma SingleChildDiags(t: string, c: Element)
    ensures DescendantDiags(Element(t, None, [c])) == Tagged([c], "diag") + DescendantDiags(c)
  {
    SingleChildDescendants(t, c);
    TaggedAppend([c], Descendants(c), "diag");
  }

  /** Below a name, a desc and one more child `c` lie those three and what lies below `c`. */
  lemma OneExtraDescendants(code: string, desc: string, c: Element)
    ensures var outer := DiagElement(code, desc, [c]);
      Descendants(outer) == outer.children[..2] + [c] + Descendants(c)
  {
    var outer := DiagElement(code, desc, [c]);
    var head := outer.children[..2];
    LeavesDescendants(head);
    assert outer.children == head + [c];
    assert outer.children[..|outer.children| - 1] == head;
  }

  /** The diags below a diag with one extra child `c`: `c` if it is a diag, then the diags below `c`. */
  lemma OneExtraDiags(code: string, desc: string, c: Element)
    ensures DescendantDiags(DiagElement(code, desc, [c])) == Tagged([c], "diag") + DescendantDiags(c)
  {
    var outer := DiagElement(code, desc, [c]);
    var head := outer.children[..2];
    OneExtraDescendants(code, desc, c);
    TaggedAppend(head + [c], Descendants(c), "diag");
    TaggedAppend(head, [c], "diag");
    TaggedNone(head, "diag");
  }

  /** The diags below a diag holding the plain diag `inner` directly, and below a section holding it. */
  lemma NestedDiags(code: string, desc: string, innerCode: string, innerDesc: string)
    ensures var inner := DiagElement(innerCode, innerDesc, []);
      && DescendantDiags(DiagElement(code, desc, [inner])) == [inner]
      && DescendantDiags(Element("section", None, [inner])) == [inner]
      && DescendantDiags(Element("chapter", None, [DiagElement(code, desc, [inner])]))
         == [DiagElement(code, desc, [inner]), inner]
  {
    var inner := DiagElement(innerCode, innerDesc, []);
    var outer := DiagElement(code, desc, [inner]);
    PlainLeafDiags(innerCode, innerDesc);
    OneExtraDiags(code, desc, inner);
    SingleChildDiags("section", inner);
    assert Tagged([inner], "diag") == [inner];
    SingleChildDiags("chapter", outer);
    assert Tagged([outer], "diag") == [outer];
  }

  /**
   * A chapter holding diag `outer` with the plain diag `inner` nested directly in it meets the
   * requirements of `ProcessedRevisits`, so `process_element` of that chapter emits `inner` twice.
   */
  lemma RevisitsShape(code: string, desc: string, innerCode: string, innerDesc: string)
    requires code != "" && desc != "" && innerCode != "" && innerDesc != ""
    ensures var inner := DiagElement(innerCode, innerDesc, []);
      var outer := DiagElement(code, desc, [inner]);
      var chapter := Element("chapter", None, [outer]);
      && DescendantDiags(chapter) == [outer, inner] && Own(chapter) == Ok([])
      && DescendantDiags(outer) == [inner] && DescendantDiags(inner) == []
      && Own(outer) == Ok([DiagRecord(code, desc, None, None, None)])
      && Own(inner) == Ok([DiagRecord(innerCode, innerDesc, None, None, None)])
  {
    PlainLeafDiags(innerCode, innerDesc);
    NestedDiags(code, desc, innerCode, innerDesc);
    PlainLeafOwn(innerCode, innerDesc);
    NestedOwn(code, desc, innerCode, innerDesc);
  }

  /** Below a name, a desc and a child `c` free of inclusion terms there is no inclusion term. */
  lemma OneExtraNoInclusionTerms(code: string, desc: string, c: Element)
    requires c.tag != "inclusionTerm"
    requires forall d :: d in Descendants(c) ==> d.tag != "inclusionTerm"
    ensures forall d :: d in Descendants(DiagElement(code, desc, [c])) ==> d.tag != "inclusionTerm"
  {
    OneExtraDescendants(code, desc, c);
  }

  /** The record of a plain diag, with or without one extra child that is a diag or a section. */
  lemma PlainOwn(code: string, desc: string, extra: seq<Element>)
    requires code != "" && desc != "" && |extra| <= 1
    requires forall c :: c in extra ==> c.tag in {"diag", "section"}
    requires forall d :: d in Descendants(DiagElement(code, desc, extra)) ==> d.tag != "inclusionTerm"
    ensures Own(DiagElement(code, desc, extra)) == Ok([DiagRecord(code, desc, None, None, None)])
  {
    PlainDiagRecord(code, desc, extra);
  }

  /** The record of diag `outer` holding the plain diag `inner` directly. */
  lemma NestedOwn(code: string, desc: string, innerCode: string, innerDesc: string)
    requires code != "" && desc != "" && innerCode != "" && innerDesc != ""
    ensures Own(DiagElement(code, desc, [DiagElement(innerCode, innerDesc, [])]))
         == Ok([DiagRecord(code, desc, None, None, None)])
  {
    var inner := DiagElement(innerCode, innerDesc, []);
    PlainLeafNoInclusionTerms(innerCode, innerDesc);
    OneExtraNoInclusionTerms(code, desc, inner);
    PlainOwn(code, desc, [inner]);
  }

  /** The record of diag `outer` holding a section that holds the plain diag `inner`. */
  lemma SectionOwn(code: string, desc: string, innerCode: string, innerDesc: string)
    requires code != "" && desc != "" && innerCode != "" && innerDesc != ""
    ensures Own(DiagElement(code, desc, [Element("section", None, [DiagElement(innerCode, innerDesc, [])])]))
         == Ok([DiagRecord(code, desc, None, None, None)])
  {
    var section := Element("section", None, [DiagElement(innerCode, innerDesc, [])]);
    SectionNoInclusionTerms(innerCode, innerDesc);
    OneExtraNoInclusionTerms(code, desc, section);
    PlainOwn(code, desc, [section]);
  }

  /** Nothing below a diag with a name and a desc and nothing else is an inclusion term. */
  lemma PlainLeafNoInclusionTerms(code: string, desc: string)
    ensures forall d :: d in Descendants(DiagElement(code, desc, [])) ==> d.tag != "inclusionTerm"
  {
    LeavesDescendants(DiagElement(code, desc, []).children);
  }

  /** The record of a diag with a name and a desc and nothing else. */
  lemma PlainLeafOwn(code: string, desc: string)
    requires code != "" && desc != ""
    ensures Own(DiagElement(code, desc, [])) == Ok([DiagRecord(code, desc, None, None, None)])
  {
    PlainLeafNoInclusionTerms(code, desc);
    PlainOwn(code, desc, []);
  }

  /** Nothing below a section holding only a plain diag is an inclusion term. */
  lemma SectionNoInclusionTerms(innerCode: string, innerDesc: string)
    ensures var section := Element("section", None, [DiagElement(innerCode, innerDesc, [])]);
      forall d :: d in Descendants(section) ==> d.tag != "inclusionTerm"
  {
    PlainLeafNoInclusionTerms(innerCode, innerDesc);
    SingleChildDescendants("section", DiagElement(innerCode, innerDesc, []));
  }

  /**
   * Inside a diag, `parse_icd10_xml` follows only direct diag children: a diag `inner` that lies
   * below diag `outer` but not as its child is never collected, although module-level
   * `process_element` finds it.
   */
  lemma ParseSkipsIndirectDiag(outer: Element, inner: Element)
    requires outer.tag == "diag" && ChildDiags(outer) == []
    requires DescendantDiags(outer) == [inner] && DescendantDiags(inner) == []
    requires Own(outer).Ok? && Own(inner).Ok?
    ensures Parsed(outer) == Ok(Own(outer).value)
    ensures Processed(outer) == Ok(Own(outer).value + Own(inner).value)
  {
    ParsedNoChildDiags(outer, Own(outer).value);
    ProcessedNested(outer, inner);
  }

  /**
   * A diag `outer` holding a section that holds the plain diag `inner` meets the requirements of
   * `ParseSkipsIndirectDiag`: `parse_icd10_xml` never sees `inner`.
   */
  lemma SkipsShape(code: string, desc: string, innerCode: string, innerDesc: string)
    requires code != "" && desc != "" && innerCode != "" && innerDesc != ""
    ensures var inner := DiagElement(innerCode, innerDesc, []);
      var outer := DiagElement(code, desc, [Element("section", None, [inner])]);
      && outer.tag == "diag" && ChildDiags(outer) == []
      && DescendantDiags(outer) == [inner] && DescendantDiags(inner) == []
      && Own(outer) == Ok([DiagRecord(code, desc, None, None, None)])
      && Own(inner) == Ok([DiagRecord(innerCode, innerDesc, None, None, None)])
  {
    var section := Element("section", None, [DiagElement(innerCode, innerDesc, [])]);
    SectionOwn(code, desc, innerCode, innerDesc);
    PlainLeafOwn(innerCode, innerDesc);
    PlainLeafDiags(innerCode, innerDesc);
    SectionDiags(code, desc, innerCode, innerDesc);
    NoChildDiags(code, desc, section);
  }

  /** A diag whose one extra child is not a diag has no diag children. */
  lemma NoChildDiags(code: string, desc: string, c: Element)
    requires c.tag != "diag"
    ensures ChildDiags(DiagElement(code, desc, [c])) == []
  {
    var outer := DiagElement(code, desc, [c]);
    assert outer.children == [outer.children[0], outer.children[1], c];
    TaggedNone(outer.children, "diag");
  }

  /** A diag holding a section that holds the plain diag `inner` has `inner` as its one diag below. */
  lemma SectionDiags(code: string, desc: string, innerCode: string, innerDesc: string)
    ensures var inner := DiagElement(innerCode, innerDesc, []);
      DescendantDiags(DiagElement(code, desc, [Element("section", None, [inner])])) == [inner]
  {
    var inner := DiagElement(innerCode, innerDesc, []);
    var section := Element("section", None, [inner]);
    NestedDiags(code, desc, innerCode, innerDesc);
    OneExtraDiags(code, desc, section);
    assert Tagged([section], "diag") == [];
  }
}

/**
 * `parse_revision_xml`: the fields of one revision record, read from the
 * first `revision` element of a parsed document.
 */
module RevisionParser {
  import opened Wrappers
  import opened XmlTree

  /** The record built for one revision. Every `Option` field is `None` when
      its element is absent; `text` is present exactly when the caller asked
      for the full text. */
  datatype Revision = Revision(
    revisionId: Option<string>,
    timestamp: Option<string>,
    username: Option<string>,
    userid: Option<string>,
    comment: Option<string>,
    textLength: nat,
    text: Option<string>)

  /** `elem.text if elem else None`: a found element counts even when its text is empty. */
  function TextOf(elem: Option<Element>): Option<string>
  {
    match elem
    case Some(e) => Some(e.text)
    case None => None
  }

  /** The string value of the first descendant of `e` named `name`, found in
      document order; the meaning, in terms of the tree, of `TextOf(Find(e, name))`. */
  function FirstText(e: Element, name: string): Option<string>
  {
    var k := FirstIndex(Descendants(e), name);
    if k < |Descendants(e)| then Some(Descendants(e)[k].text) else None
  }

  /** The record for the document, or `None` (the empty dictionary) when it has no `revision` element. */
  function ParseRevision(doc: Element, includeText: bool): (r: Option<Revision>)
    ensures r.Some? <==> HasNamed(Descendants(doc), "revision")
    ensures r.Some? ==> (r.value.text.Some? <==> includeText)
    ensures r.Some? && r.value.text.Some? ==> r.value.textLength == |r.value.text.value|
  {
    FindIsFirstInDocumentOrder(doc, "revision");
    match Find(doc, "revision")
    case None => None
    case Some(revision) =>
      var (username, userid) :=
        match Find(revision, "contributor")
        case None => (None, None)
        case Some(contributor) =>
          var username :=
            match Find(contributor, "username")
            case Some(u) => Some(u.text)
            case None => TextOf(Find(contributor, "ip"));
          (username, TextOf(Find(contributor, "id")));
      var textContent := match Find(revision, "text") case Some(t) => t.text case None => "";
      Some(Revision(
        revisionId := TextOf(Find(revision, "id")),
        timestamp := TextOf(Find(revision, "timestamp")),
        username := username,
        userid := userid,
        comment := TextOf(Find(revision, "comment")),
        textLength := |textContent|,
        text := if includeText then Some(textContent) else None))
  }

  /** The revision element that extraction reads from, when there is one. */
  function RevisionOf(doc: Element): Option<Element>
  {
    FirstNamed(Descendants(doc), "revision")
  }

  /** `revision_id`, `timestamp` and `comment` are each the text of the first
      descendant of the revision carrying that name, looked up independently
      of each other and of the contributor. */
  lemma IndependentLookups(doc: Element, includeText: bool)
    requires RevisionOf(doc).Some?
    ensures var r, rev := ParseRevision(doc, includeText), RevisionOf(doc).value;
      && r.Some?
      && r.value.revisionId == FirstText(rev, "id")
      && r.value.timestamp == FirstText(rev, "timestamp")
      && r.value.comment == FirstText(rev, "comment")
  {
    var rev := RevisionOf(doc).value;
    FindIsFirstInDocumentOrder(doc, "revision");
    FindIsFirstInDocumentOrder(rev, "id");
    FindIsFirstInDocumentOrder(rev, "timestamp");
    FindIsFirstInDocumentOrder(rev, "comment");
  }

  /** A `username` element inside the contributor decides the username, even
      when its text is empty; the user id is the contributor's `id` text. */
  lemma UsernameFromUsernameElement(doc: Element, includeText: bool, contributor: Element)
    requires RevisionOf(doc).Some?
    requires FirstNamed(Descendants(RevisionOf(doc).value), "contributor") == Some(contributor)
    requires HasNamed(Descendants(contributor), "username")
    ensures var r := ParseRevision(doc, includeText);
      && r.Some?
      && r.value.username == FirstText(contributor, "username")
      && r.value.username.Some?
      && r.value.userid == FirstText(contributor, "id")
  {
    var rev := RevisionOf(doc).value;
    FindIsFirstInDocumentOrder(doc, "revision");
    FindIsFirstInDocumentOrder(rev, "contributor");
    FindIsFirstInDocumentOrder(contributor, "username");
    FindIsFirstInDocumentOrder(contributor, "id");
  }

  /** Without a `username` element the username falls back to the `ip`
      element's text, and is `None` when that is absent too. */
  lemma UsernameFallsBackToIp(doc: Element, includeText: bool, contributor: Element)
    requires RevisionOf(doc).Some?
    requires FirstNamed(Descendants(RevisionOf(doc).value), "contributor") == Some(contributor)
    requires !HasNamed(Descendants(contributor), "username")
    ensures var r := ParseRevision(doc, includeText);
      && r.Some?
      && r.value.username == FirstText(contributor, "ip")
      && (r.value.username.None? <==> !HasNamed(Descendants(contributor), "ip"))
      && r.value.userid == FirstText(contributor, "id")
  {
    var rev := RevisionOf(doc).value;
    FindIsFirstInDocumentOrder(doc, "revision");
    FindIsFirstInDocumentOrder(rev, "contributor");
    FindIsFirstInDocumentOrder(contributor, "username");
    FindIsFirstInDocumentOrder(contributor, "ip");
    FindIsFirstInDocumentOrder(contributor, "id");
  }

  /** With no `contributor` element both `username` and `userid` are `None`,
      whatever `username`, `ip` or `id` elements lie elsewhere in the revision. */
  lemma NoContributorNoUser(doc: Element, includeText: bool)
    requires RevisionOf(doc).Some?
    requires !HasNamed(Descendants(RevisionOf(doc).value), "contributor")
    ensures var r := ParseRevision(doc, includeText);
      r.Some? && r.value.username.None? && r.value.userid.None?
  {
    var rev := RevisionOf(doc).value;
    FindIsFirstInDocumentOrder(doc, "revision");
    FindIsFirstInDocumentOrder(rev, "contributor");
  }

  /** `text_length` is the length of the `text` element's string (0 when it
      is absent) whatever `include_text` is; the two settings give the same
      record except that only `include_text` adds the `text` field, holding
      that same string. */
  lemma TextLengthIgnoresIncludeText(doc: Element)
    requires RevisionOf(doc).Some?
    ensures var without, with := ParseRevision(doc, false), ParseRevision(doc, true);
      var rev := RevisionOf(doc).value;
      var content := match FirstText(rev, "text") case Some(t) => t case None => "";
      && without.Some? && with.Some?
      && without.value.textLength == with.value.textLength == |content|
      && without.value.text == None
      && with.value.text == Some(content)
      && with.value.(text := None) == without.value
  {
    var rev := RevisionOf(doc).value;
    FindIsFirstInDocumentOrder(doc, "revision");
    FindIsFirstInDocumentOrder(rev, "text");
  }

  /** Because `find` searches all descendants, a revision without an `id` of
      its own takes its `revision_id` from the contributor's `id`. */
  lemma RevisionIdFromContributor(doc: Element, includeText: bool, contributor: Element)
    requires RevisionOf(doc).Some?
    requires RevisionOf(doc).value.children == [contributor]
    requires contributor.name == "contributor"
    requires HasNamed(Descendants(contributor), "id")
    ensures var r := ParseRevision(doc, includeText);
      r.Some? && r.value.revisionId.Some? && r.value.revisionId == r.value.userid
  {
    var rev := RevisionOf(doc).value;
    FindIsFirstInDocumentOrder(doc, "revision");
    FindIsFirstInDocumentOrder(rev, "id");
    FindIsFirstInDocumentOrder(rev, "contributor");
    FindIsFirstInDocumentOrder(contributor, "id");
    assert rev.children[1..] == [] && Preorder([]) == [];
    assert Descendants(rev) == [contributor] + Descendants(contributor) + [];
    FirstNamedConcat([contributor], Descendants(contributor), "id");
    FirstNamedConcat([contributor] + Descendants(contributor), [], "contributor");
    FirstNamedConcat([contributor] + Descendants(contributor), [], "id");
  }
}

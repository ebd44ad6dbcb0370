/**
 * Normalisation of the API's work-package records into `WorkPackage` values
 * (the `map` in `getWorkPackages`, src/lib/api/workPackages.ts and src/lib/api.ts).
 */
module WorkPackages {
  import opened Wrappers
  import opened Dates
  import opened OpenProject

  /** A HAL link `{ href, title }`; `title` may be absent. */
  datatype WireLink = WireLink(href: string, title: Option<string>)

  /** The `_links` object: every link but the assignee is always present. */
  datatype WireLinks = WireLinks(
    status: WireLink,
    kind: WireLink,
    assignee: Option<WireLink>,
    project: WireLink,
    priority: WireLink)

  /** A formattable text `{ raw }`. */
  datatype WireText = WireText(raw: Option<string>)

  /** One element of `_embedded.elements` as the API sends it. */
  datatype WireWorkPackage = WireWorkPackage(
    id: string,
    subject: string,
    description: Option<WireText>,
    startDate: Option<Day>,
    dueDate: Option<Day>,
    estimatedTime: Option<real>,
    percentageDone: Option<int>,
    createdAt: string,
    updatedAt: string,
    links: WireLinks)

  const DefaultStatusColor: string := "#cccccc"

  /** `href.split('/').pop() || ''`: the part of `href` after its last '/'. */
  function LastSegment(href: string): (r: string)
    ensures '/' !in r
    ensures |r| <= |href| && r == href[|href| - |r|..]
    ensures |r| < |href| ==> href[|href| - |r| - 1] == '/'
  {
    if href == [] then []
    else if href[|href| - 1] == '/' then []
    else
      var r := LastSegment(href[..|href| - 1]);
      assert href[..|href| - 1][|href| - 1 - |r|..] == href[|href| - 1 - |r|..|href| - 1];
      r + [href[|href| - 1]]
  }

  /** A link's id is empty exactly when its `href` is empty or ends in '/'. */
  lemma LastSegmentEmpty(href: string)
    ensures LastSegment(href) == [] <==> href == [] || href[|href| - 1] == '/'
  {
  }

  /** An `href` without '/' is its own id. */
  lemma LastSegmentWithoutSlash(href: string)
    requires '/' !in href
    ensures LastSegment(href) == href
  {
  }

  /** The id of a resource path is its final component. */
  lemma {:induction false} LastSegmentOfPath(prefix: string, id: string)
    requires '/' !in id
    ensures LastSegment(prefix + "/" + id) == id
  {
    var href := prefix + "/" + id;
    if id != [] {
      var init := id[..|id| - 1];
      assert id == init + [id[|id| - 1]];
      assert '/' !in init by {
        forall c | c in init ensures c in id { }
      }
      LastSegmentOfPath(prefix, init);
      assert href[..|href| - 1] == prefix + "/" + init;
    }
  }

  /** `title || placeholder`: an absent or empty title is replaced by the placeholder. */
  function TitleOr(title: Option<string>, placeholder: string): string {
    if title.Some? && title.value != "" then title.value else placeholder
  }

  function LinkReference(link: WireLink, placeholder: string): Reference {
    Reference(LastSegment(link.href), TitleOr(link.title, placeholder))
  }

  /** One record of the `map` callback. */
  function Normalize(w: WireWorkPackage): (wp: WorkPackage)
    ensures wp.id == w.id && wp.subject == w.subject
    ensures wp.startDate == w.startDate && wp.dueDate == w.dueDate
    ensures wp.estimatedTime == w.estimatedTime
    ensures wp.createdAt == w.createdAt && wp.updatedAt == w.updatedAt
    ensures wp.percentageDone == (if w.percentageDone.Some? then w.percentageDone.value else 0)
    ensures wp.status.color == DefaultStatusColor
    ensures wp.assignedTo.None? <==> w.links.assignee.None?
    ensures wp.version.None?
  {
    WorkPackage(
      w.id,
      w.subject,
      Some(if w.description.Some? && w.description.value.raw.Some? then w.description.value.raw.value else ""),
      w.startDate,
      w.dueDate,
      w.estimatedTime,
      if w.percentageDone.Some? && w.percentageDone.value != 0 then w.percentageDone.value else 0,
      w.createdAt,
      w.updatedAt,
      Status(LastSegment(w.links.status.href), TitleOr(w.links.status.title, "Unknown"), DefaultStatusColor),
      LinkReference(w.links.kind, "Unknown"),
      if w.links.assignee.Some? then Some(LinkReference(w.links.assignee.value, "Unassigned")) else None,
      LinkReference(w.links.project, "Unknown"),
      LinkReference(w.links.priority, "Normal"),
      None)
  }

  /** `title || placeholder` as a value: a present, non-empty title, else the placeholder. */
  predicate NamedOr(name: string, title: Option<string>, placeholder: string) {
    name == if title.Some? && title.value != "" then title.value else placeholder
  }

  /**
   * The link ids and names of a normalised record: every id is its href's last segment, and
   * every name is the link's title when that is present and non-empty, else the placeholder
   * ('Unknown' for status, type and project, 'Normal' for priority, 'Unassigned' for assignee).
   */
  lemma NormalizeReferences(w: WireWorkPackage)
    ensures var wp, l := Normalize(w), w.links;
      && wp.status.id == LastSegment(l.status.href) && '/' !in wp.status.id
      && wp.kind.id == LastSegment(l.kind.href) && '/' !in wp.kind.id
      && wp.project.id == LastSegment(l.project.href) && '/' !in wp.project.id
      && wp.priority.id == LastSegment(l.priority.href) && '/' !in wp.priority.id
      && NamedOr(wp.status.name, l.status.title, "Unknown")
      && NamedOr(wp.kind.name, l.kind.title, "Unknown")
      && NamedOr(wp.project.name, l.project.title, "Unknown")
      && NamedOr(wp.priority.name, l.priority.title, "Normal")
      && (l.assignee.Some? ==>
            && wp.assignedTo.value.id == LastSegment(l.assignee.value.href)
            && NamedOr(wp.assignedTo.value.name, l.assignee.value.title, "Unassigned"))
  {
  }

  /** `description?.raw || ''`: the raw text when present and non-empty, otherwise empty. */
  lemma NormalizeDescription(w: WireWorkPackage)
    ensures Normalize(w).description == Some(
      if w.description.Some? && w.description.value.raw.Some? then w.description.value.raw.value else "")
  {
  }

  /** `_embedded.elements.map(...)`: same length and order as the records. */
  function NormalizeAll(elements: seq<WireWorkPackage>): (r: seq<WorkPackage>)
    ensures |r| == |elements|
    ensures forall i :: 0 <= i < |r| ==> r[i] == Normalize(elements[i])
  {
    seq(|elements|, i requires 0 <= i < |elements| => Normalize(elements[i]))
  }

  /** Unassigned records stay unassigned; assigned ones keep their assignee's id. */
  lemma NormalizeAllAssignees(elements: seq<WireWorkPackage>, i: int)
    requires 0 <= i < |elements|
    ensures NormalizeAll(elements)[i].assignedTo.None? <==> elements[i].links.assignee.None?
    ensures elements[i].links.assignee.Some? ==>
      NormalizeAll(elements)[i].assignedTo.value.id == LastSegment(elements[i].links.assignee.value.href)
  {
  }
}

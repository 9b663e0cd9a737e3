/**
 * The project gallery: filtering the projects by category, the tags shown
 * on a card, and the hover and selection state that decide which card shows
 * its overlay and which project fills the modal.
 */
module Portfolio {
  import opened Sequences

  datatype Project = Project(id: int, title: string, category: string, tags: seq<string>, client: string)

  /** The filter that passes every project. */
  const AllFilter: string := "all"

  /** projects.filter(p => p.category === category): the matching projects, in their original order. */
  function ByCategory(projects: seq<Project>, category: string): (r: seq<Project>)
    ensures IsSubsequence(r, projects)
    ensures forall p :: p in r ==> p in projects && p.category == category
    ensures forall p :: p in projects && p.category == category ==> p in r
    ensures forall q :: multiset(r)[q] == if q.category == category then multiset(projects)[q] else 0
  {
    if projects == [] then []
    else
      assert projects == [projects[0]] + projects[1..];
      if projects[0].category == category then [projects[0]] + ByCategory(projects[1..], category)
      else ByCategory(projects[1..], category)
  }

  /** Filtering a concatenation filters each part, so the filter keeps every matching copy in place. */
  lemma {:induction false} ByCategoryConcat(s: seq<Project>, t: seq<Project>, category: string)
    ensures ByCategory(s + t, category) == ByCategory(s, category) + ByCategory(t, category)
  {
    if s == [] {
      assert s + t == t;
    } else {
      assert (s + t)[1..] == s[1..] + t;
      ByCategoryConcat(s[1..], t, category);
    }
  }

  /** The projects the grid shows for a filter; "all" passes the list through unchanged. */
  function FilteredProjects(filter: string, projects: seq<Project>): (r: seq<Project>)
    ensures filter == AllFilter ==> r == projects
    ensures IsSubsequence(r, projects)
    ensures filter != AllFilter ==> forall p :: p in r ==> p.category == filter
    ensures filter != AllFilter ==> forall p :: p in projects && p.category == filter ==> p in r
    ensures filter != AllFilter ==>
      forall q :: multiset(r)[q] == if q.category == filter then multiset(projects)[q] else 0
  {
    if filter == AllFilter then
      SubsequenceReflexive(projects);
      projects
    else ByCategory(projects, filter)
  }

  /** A filtered list is never longer than the list it comes from. */
  lemma FilteredLength(filter: string, projects: seq<Project>)
    ensures |FilteredProjects(filter, projects)| <= |projects|
  {
    SubsequenceLength(FilteredProjects(filter, projects), projects);
  }

  /** tags.slice(0, 3): at most three tags, the first ones of the list. */
  function ShownTags(tags: seq<string>): (r: seq<string>)
    ensures |r| == if |tags| < 3 then |tags| else 3
    ensures r == tags[..|r|]
  {
    if |tags| <= 3 then tags else tags[..3]
  }

  /** The overlay opacity of the card for project id. */
  function OverlayOpacity(hoveredId: Option<int>, id: int): int {
    if hoveredId == Some(id) then 1 else 0
  }

  /** Among cards with distinct ids, at most one shows its overlay. */
  lemma AtMostOneOverlay(cards: seq<Project>, hoveredId: Option<int>, i: nat, j: nat)
    requires forall a, b :: 0 <= a < b < |cards| ==> cards[a].id != cards[b].id
    requires i < |cards| && j < |cards|
    requires OverlayOpacity(hoveredId, cards[i].id) == 1 && OverlayOpacity(hoveredId, cards[j].id) == 1
    ensures i == j
  {
  }

  /** The gallery component's state. */
  class Gallery {
    var filter: string
    var selectedProject: Option<Project>
    var hoveredId: Option<int>

    constructor ()
      ensures filter == AllFilter && selectedProject == None && hoveredId == None && !ModalShown()
    {
      filter := AllFilter;
      selectedProject := None;
      hoveredId := None;
    }

    /** A filter button was clicked. */
    method SetFilter(f: string)
      modifies this
      ensures filter == f && selectedProject == old(selectedProject) && hoveredId == old(hoveredId)
    {
      filter := f;
    }

    /** The pointer entered the card of project id. */
    method HoverEnter(id: int)
      modifies this
      ensures hoveredId == Some(id) && filter == old(filter) && selectedProject == old(selectedProject)
    {
      hoveredId := Some(id);
    }

    /** The pointer left a card. */
    method HoverLeave()
      modifies this
      ensures hoveredId == None && filter == old(filter) && selectedProject == old(selectedProject)
    {
      hoveredId := None;
    }

    /** A card was clicked: its project opens in the modal. */
    method Select(p: Project)
      modifies this
      ensures selectedProject == Some(p) && ModalShown()
      ensures filter == old(filter) && hoveredId == old(hoveredId)
    {
      selectedProject := Some(p);
    }

    /** The modal was closed. */
    method CloseModal()
      modifies this
      ensures selectedProject == None && !ModalShown()
      ensures filter == old(filter) && hoveredId == old(hoveredId)
    {
      selectedProject := None;
    }

    /** The project modal is open. */
    predicate ModalShown()
      reads this
    {
      selectedProject.Some?
    }
  }
}

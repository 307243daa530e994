/** The research paper dashboard: the list of papers, the handlers that load, add, update,
    delete and import papers, and the search-and-filter view over the list. */
module Research {
  import opened Values
  import opened Strings
  import opened Collections

  const PaperId := "paper_id"

  /** What the page shows in its error banner when the update handler runs without a
      selected paper: the message of the TypeError raised by `selectedPaper.paper_id`. */
  const NoSelectionError := "Cannot read properties of null (reading 'paper_id')"

  /** One paper passes the search box and both drop-downs: the search term occurs,
      ignoring case, in its title, authors or DOI, and an empty drop-down accepts
      every status or source. */
  predicate PaperMatches(paper: Record, searchTerm: string, statusFilter: string, sourceFilter: string)
  {
    (FieldIncludes(paper, "title", searchTerm) ||
     FieldIncludes(paper, "authors", searchTerm) ||
     FieldIncludes(paper, "doi", searchTerm)) &&
    (statusFilter == "" || Get(paper, "status") == Str(statusFilter)) &&
    (sourceFilter == "" || Get(paper, "source") == Str(sourceFilter))
  }

  /** `filteredPapers` */
  function FilteredPapers(papers: seq<Record>, searchTerm: string, statusFilter: string, sourceFilter: string): seq<Record>
  {
    Filter(papers, (p: Record) => PaperMatches(p, searchTerm, statusFilter, sourceFilter))
  }

  /** The view holds exactly the matching papers, in list order. */
  lemma FilteredPapersAreMatches(papers: seq<Record>, searchTerm: string, statusFilter: string, sourceFilter: string)
    ensures IsSubsequence(FilteredPapers(papers, searchTerm, statusFilter, sourceFilter), papers)
    ensures forall p :: p in FilteredPapers(papers, searchTerm, statusFilter, sourceFilter) <==>
              p in papers && PaperMatches(p, searchTerm, statusFilter, sourceFilter)
  {
    FilterIsSubsequence(papers, (p: Record) => PaperMatches(p, searchTerm, statusFilter, sourceFilter));
  }

  /** A paper with a title, authors or DOI text can be searched for. */
  predicate Searchable(paper: Record)
  {
    Get(paper, "title").Str? || Get(paper, "authors").Str? || Get(paper, "doi").Str?
  }

  /** With an empty search box and both drop-downs empty, every searchable paper is shown,
      in list order. */
  lemma NoFilterShowsAll(papers: seq<Record>)
    requires forall p :: p in papers ==> Searchable(p)
    ensures FilteredPapers(papers, "", "", "") == papers
  {
    forall p | p in papers ensures PaperMatches(p, "", "", "") {
      if Get(p, "title").Str? {
        EmptyTermMatchesText(p, "title");
      } else if Get(p, "authors").Str? {
        EmptyTermMatchesText(p, "authors");
      } else {
        EmptyTermMatchesText(p, "doi");
      }
    }
    FilterAll(papers, (p: Record) => PaperMatches(p, "", "", ""));
  }

  /** A paper without title, authors and DOI text is never shown, whatever the filters. */
  lemma UnsearchableHidden(papers: seq<Record>, paper: Record, searchTerm: string, statusFilter: string, sourceFilter: string)
    requires !Searchable(paper)
    ensures paper !in FilteredPapers(papers, searchTerm, statusFilter, sourceFilter)
  {
  }

  /** A chosen status or source admits only papers with exactly that status or source. */
  lemma DropDownsConstrain(papers: seq<Record>, searchTerm: string, statusFilter: string, sourceFilter: string)
    ensures forall p :: p in FilteredPapers(papers, searchTerm, statusFilter, sourceFilter) ==>
              (statusFilter != "" ==> Get(p, "status") == Str(statusFilter)) &&
              (sourceFilter != "" ==> Get(p, "source") == Str(sourceFilter))
  {
  }

  /** The dashboard's state. */
  class ResearchPage {
    var papers: seq<Record>
    var loading: bool
    var error: Option<string>
    var searchTerm: string
    var statusFilter: string
    var sourceFilter: string
    var selectedPaper: Option<Record>
    var showModal: bool
    var modalType: string
    var isSubmitting: bool

    constructor ()
      ensures papers == [] && loading && error == None
      ensures searchTerm == "" && statusFilter == "" && sourceFilter == ""
      ensures selectedPaper == None && !showModal && modalType == "" && !isSubmitting
    {
      papers := [];
      loading := true;
      error := None;
      searchTerm := "";
      statusFilter := "";
      sourceFilter := "";
      selectedPaper := None;
      showModal := false;
      modalType := "";
      isSubmitting := false;
    }

    /** The paper cards on screen. */
    function Visible(): seq<Record>
      reads this
    {
      FilteredPapers(papers, searchTerm, statusFilter, sourceFilter)
    }

    /** `fetchPapers`: a successful load replaces the whole list; a failed one keeps it
        and sets the error. */
    method FetchPapers(response: Outcome<seq<Record>>)
      modifies this`loading, this`error, this`papers
      ensures !loading
      ensures response.Ok? ==> papers == response.value && error == None
      ensures response.Fail? ==>
                papers == old(papers) && error == Some(OrElse(response.message, "Failed to fetch papers"))
    {
      loading := true;
      error := None;
      match response {
        case Ok(list) =>
          papers := list;
        case Fail(message) =>
          error := Some(OrElse(message, "Failed to fetch papers"));
      }
      loading := false;
    }

    method OpenAddPaperModal()
      modifies this`modalType, this`selectedPaper, this`showModal
      ensures modalType == "add" && selectedPaper == None && showModal
    {
      modalType := "add";
      selectedPaper := None;
      showModal := true;
    }

    method OpenEditPaperModal(paper: Record)
      modifies this`modalType, this`selectedPaper, this`showModal
      ensures modalType == "edit" && selectedPaper == Some(paper) && showModal
    {
      modalType := "edit";
      selectedPaper := Some(paper);
      showModal := true;
    }

    method OpenViewPaperModal(paper: Record)
      modifies this`modalType, this`selectedPaper, this`showModal
      ensures modalType == "view" && selectedPaper == Some(paper) && showModal
    {
      modalType := "view";
      selectedPaper := Some(paper);
      showModal := true;
    }

    /** `handleAddPaper`: the returned paper goes at the end of the list. */
    method AddPaper(response: Outcome<Record>)
      modifies this`isSubmitting, this`papers, this`showModal, this`selectedPaper, this`error
      ensures !isSubmitting
      ensures response.Ok? ==>
                papers == old(papers) + [response.value] && !showModal && selectedPaper == None &&
                error == old(error)
      ensures response.Fail? ==>
                papers == old(papers) && showModal == old(showModal) && selectedPaper == old(selectedPaper) &&
                error == Some(OrElse(response.message, "Failed to add paper"))
    {
      isSubmitting := true;
      match response {
        case Ok(paper) =>
          papers := papers + [paper];
          showModal := false;
          selectedPaper := None;
        case Fail(message) =>
          error := Some(OrElse(message, "Failed to add paper"));
      }
      isSubmitting := false;
    }

    /** `handleUpdatePaper`: the response is merged into every entry with the selected
        paper's id, in place. Without a selected paper nothing is sent and the page shows
        the TypeError. */
    method UpdatePaper(response: Outcome<Record>) returns (sent: bool)
      modifies this`isSubmitting, this`papers, this`showModal, this`selectedPaper, this`error
      ensures !isSubmitting
      ensures sent == old(selectedPaper).Some?
      ensures !sent ==> papers == old(papers) && error == Some(NoSelectionError) &&
                        showModal == old(showModal) && selectedPaper == old(selectedPaper)
      ensures sent && response.Ok? ==>
                papers == MergeId(old(papers), PaperId, Get(old(selectedPaper).value, PaperId), response.value) &&
                !showModal && selectedPaper == None && error == old(error)
      ensures sent && response.Fail? ==>
                papers == old(papers) && showModal == old(showModal) && selectedPaper == old(selectedPaper) &&
                error == Some(OrElse(response.message, "Failed to update paper"))
    {
      isSubmitting := true;
      if selectedPaper.None? {
        sent := false;
        error := Some(NoSelectionError);
      } else {
        sent := true;
        var id := Get(selectedPaper.value, PaperId);
        match response {
          case Ok(patch) =>
            papers := MergeId(papers, PaperId, id, patch);
            showModal := false;
            selectedPaper := None;
          case Fail(message) =>
            error := Some(OrElse(message, "Failed to update paper"));
        }
      }
      isSubmitting := false;
    }

    /** `handleDeletePaper`: nothing is sent unless the user confirms; a successful delete
        drops every entry with the paper's id and keeps the rest in order. */
    method DeletePaper(paper: Record, confirmed: bool, response: Outcome<()>) returns (sent: bool)
      modifies this`papers, this`error
      ensures sent == confirmed
      ensures !sent ==> papers == old(papers) && error == old(error)
      ensures sent && response.Ok? ==> papers == RemoveId(old(papers), PaperId, Get(paper, PaperId)) && error == old(error)
      ensures sent && response.Fail? ==>
                papers == old(papers) && error == Some(OrElse(response.message, "Failed to delete paper"))
    {
      sent := confirmed;
      if confirmed {
        match response {
          case Ok(_) =>
            papers := RemoveId(papers, PaperId, Get(paper, PaperId));
          case Fail(message) =>
            error := Some(OrElse(message, "Failed to delete paper"));
        }
      }
    }

    /** `handleScholarSearch`: the search by Scholar ID or by author name; the papers found
        are appended unless their id is already in the list. */
    method ScholarSearch(searchType: string, response: Outcome<seq<Record>>) returns (byScholarId: bool)
      modifies this`isSubmitting, this`papers, this`showModal, this`error
      ensures !isSubmitting
      ensures byScholarId == (searchType == "scholar")
      ensures response.Ok? ==>
                papers == AppendUnseen(old(papers), response.value, PaperId) && !showModal && error == old(error)
      ensures response.Fail? ==>
                papers == old(papers) && showModal == old(showModal) &&
                error == Some(OrElse(response.message, "Search failed"))
    {
      isSubmitting := true;
      byScholarId := searchType == "scholar";
      match response {
        case Ok(found) =>
          if |found| > 0 {
            papers := AppendUnseen(papers, found, PaperId);
          } else {
            AppendNothing(papers, PaperId);
          }
          showModal := false;
        case Fail(message) =>
          error := Some(OrElse(message, "Search failed"));
      }
      isSubmitting := false;
    }
  }
}

/**
 * The web client's page router: one `currentPage` string, handlers that set it, and the
 * rendering switch that falls back to the home screen for any page it does not know.
 */
module App {

  /** What `renderPage` shows. */
  datatype Screen = HomeScreen | InterviewScreen | ResultsScreen

  /** The callbacks the rendered screens can call. */
  datatype Callback = StartInterview | CompleteInterview | RetakeInterview | BackToHome | LearnMore

  /** The page each callback switches to, whatever the current page. */
  function Target(cb: Callback): (page: string)
    ensures page in {"home", "interview", "results"}
    ensures page == "results" <==> cb == CompleteInterview
    ensures page == "interview" <==> cb == StartInterview || cb == RetakeInterview
  {
    match cb
    case StartInterview => "interview"
    case CompleteInterview => "results"
    case RetakeInterview => "interview"
    case BackToHome => "home"
    case LearnMore => "home"
  }

  /** `renderPage`: "interview" and "results" have their screens; anything else shows home. */
  function RenderPage(page: string): (s: Screen)
    ensures s == InterviewScreen <==> page == "interview"
    ensures s == ResultsScreen <==> page == "results"
    ensures s == HomeScreen <==> page != "interview" && page != "results"
  {
    if page == "interview" then InterviewScreen
    else if page == "results" then ResultsScreen
    else HomeScreen
  }

  /** The callbacks each screen receives. */
  function CallbacksOf(s: Screen): (cbs: set<Callback>)
    ensures cbs != {}
  {
    match s
    case HomeScreen => {StartInterview, LearnMore}
    case InterviewScreen => {CompleteInterview}
    case ResultsScreen => {RetakeInterview, BackToHome}
  }

  /** The interview screen's only way out leads to the results screen. */
  lemma InterviewLeadsToResults()
    ensures forall cb :: cb in CallbacksOf(InterviewScreen) ==> RenderPage(Target(cb)) == ResultsScreen
  {
  }

  /** Every callback lands on a screen that is rendered as itself, never through the fallback. */
  lemma CallbacksLandOnKnownPages(cb: Callback)
    ensures RenderPage(Target(cb)) == HomeScreen ==> Target(cb) == "home"
  {
  }

  class Router {
    var currentPage: string

    constructor ()
      ensures currentPage == "home"
    {
      currentPage := "home";
    }

    /** `handleNavigate`: stores the string as given, unchecked. */
    method Navigate(page: string)
      modifies this
      ensures currentPage == page
    {
      currentPage := page;
    }

    /** Any of the fixed transitions. */
    method Handle(cb: Callback)
      modifies this
      ensures currentPage == Target(cb)
      ensures RenderPage(currentPage) != HomeScreen || currentPage == "home"
    {
      currentPage := Target(cb);
    }
  }
}

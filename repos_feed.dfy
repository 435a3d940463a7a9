/**
 * The `ReposFeed` widget of repos-feed.js: one repository search, turned into
 * what the container shows (loading, empty, a list of cards, or an error),
 * and the `loading` flag around it. Markup is represented by the `View`
 * datatype; the network response is an input `Outcome`.
 */
module Feed {
  import opened Wrappers
  import opened Strings
  import opened RelativeDate
  import opened StarCount

  /** Text after `escapeHtml`, the browser serializer's escaping, which is not modelled further. */
  datatype Html = Escaped(text: string)

  /** One item of the search response. */
  datatype Repo = Repo(
    fullName: string,
    htmlUrl: string,
    description: Option<string>,
    stargazersCount: int,
    language: Option<string>,
    updatedAt: Timestamp)

  /** What one `<li class="repo-item">` shows. */
  datatype Card = Card(
    name: Html,
    url: string,
    starCount: int,
    stars: string,
    description: Option<Html>,
    language: string,
    updated: DateLabel)

  /** JavaScript truthiness of an optional string: present and non-empty. */
  predicate Truthy(s: Option<string>) {
    s.Some? && s.value != ""
  }

  const DefaultLanguage: string := "AutoHotkey"

  function CreateRepoCard(repo: Repo, now: int): (card: Card)
    ensures card.name == Escaped(repo.fullName)
    ensures card.description.Some? <==> Truthy(repo.description)
    ensures card.description.Some? ==> card.description.value == Escaped(repo.description.value)
    ensures card.language != ""
    ensures card.language == DefaultLanguage || Some(card.language) == repo.language
    ensures Truthy(repo.language) ==> card.language == repo.language.value
    ensures card.starCount == repo.stargazersCount
    ensures card.stars == FormatNumber(repo.stargazersCount)
    ensures card.updated == FormatDate(now, repo.updatedAt)
    ensures card.url == repo.htmlUrl
  {
    Card(
      Escaped(repo.fullName),
      repo.htmlUrl,
      repo.stargazersCount,
      FormatNumber(repo.stargazersCount),
      if Truthy(repo.description) then Some(Escaped(repo.description.value)) else None,
      if Truthy(repo.language) then repo.language.value else DefaultLanguage,
      FormatDate(now, repo.updatedAt))
  }

  /** `repos.map(createRepoCard)`: one card per repository, in order. */
  function Cards(repos: seq<Repo>, now: int): (cards: seq<Card>)
    ensures |cards| == |repos|
    ensures forall i :: 0 <= i < |repos| ==> cards[i] == CreateRepoCard(repos[i], now)
  {
    if repos == [] then [] else [CreateRepoCard(repos[0], now)] + Cards(repos[1..], now)
  }

  /** What the container holds. `Unrendered` is whatever markup it had before the widget wrote to it. */
  datatype View =
    | Unrendered
    | Loading
    | Empty(message: string)
    | List(cards: seq<Card>)
    | Error(error: Html)

  /** A thrown JavaScript error: its `name` and `message`. */
  datatype JsError = JsError(name: string, message: string)

  /** How the request ended: a parsed body with ok status, a non-ok status, or a rejection. */
  datatype Outcome =
    | Ok(items: Option<seq<Repo>>)
    | HttpError(status: int)
    | Failed(error: JsError)

  const EmptyFeedMessage: string := "No repositories found. " + "Check back later for updates!"
  const NoReposMessage: string := "No repositories found."
  // The longer messages are written in pieces so that the verifier sees their characters.
  const RateLimitMessage: string := "GitHub API rate limit " + "exceeded. Please try again later."
  const NotFoundMessage: string := "GitHub API endpoint not found."
  const ConnectivityMessage: string :=
    "Unable to load repositories. " + "This feature requires an " + "internet connection and may " + "not work in all environments."
  const NetworkMarker: string := "Failed to fetch"

  /** The error thrown for a non-ok response. */
  function StatusError(status: int): JsError {
    JsError("Error",
      if status == 403 then RateLimitMessage
      else if status == 404 then NotFoundMessage
      else "GitHub API error: " + IntToString(status))
  }

  /** The error a missing container raises when it is written to. */
  const NullContainerError: JsError := JsError("TypeError", "Cannot set properties of null (setting 'innerHTML')")

  /** The message the catch block shows for an error. */
  function CatchMessage(e: JsError): (message: string)
    ensures message == ConnectivityMessage || message == e.message
    ensures e.name == "TypeError" ==> message == ConnectivityMessage
    ensures Contains(e.message, NetworkMarker) ==> message == ConnectivityMessage
    ensures !Contains(e.message, NetworkMarker) && e.name != "TypeError" ==> message == e.message
  {
    if Contains(e.message, NetworkMarker) || e.name == "TypeError" then ConnectivityMessage else e.message
  }

  /** What the container shows once the request has ended, when there is a container. */
  function OutcomeView(outcome: Outcome, now: int): View {
    match outcome
    case Ok(items) =>
      if items.None? || |items.value| == 0 then Empty(EmptyFeedMessage) else List(Cards(items.value, now))
    case HttpError(status) => Error(Escaped(CatchMessage(StatusError(status))))
    case Failed(e) => Error(Escaped(CatchMessage(e)))
  }

  lemma NoMarkerWithoutF(s: string)
    requires 'F' !in s
    ensures !Contains(s, NetworkMarker)
  {
    if Contains(s, NetworkMarker) {
      ContainsFirstChar(s, NetworkMarker);
    }
  }

  lemma NoFInStatusMessage(status: int)
    ensures 'F' !in StatusError(status).message
  {
    if status == 403 {
      assert 'F' !in RateLimitMessage;
    } else if status == 404 {
      assert 'F' !in NotFoundMessage;
    } else {
      var d := IntToString(status);
      assert 'F' !in d;
      assert 'F' !in "GitHub API error: ";
    }
  }

  /** No status message is mistaken for a network failure. */
  lemma StatusMessageKept(status: int)
    ensures CatchMessage(StatusError(status)) == StatusError(status).message
  {
    NoFInStatusMessage(status);
    NoMarkerWithoutF(StatusError(status).message);
  }

  /** A non-ok response shows the rate-limit message for 403, the not-found message for 404, the status otherwise. */
  lemma HttpErrorView(status: int, now: int)
    ensures status == 403 ==> OutcomeView(HttpError(status), now) == Error(Escaped(RateLimitMessage))
    ensures status == 404 ==> OutcomeView(HttpError(status), now) == Error(Escaped(NotFoundMessage))
    ensures status != 403 && status != 404 ==>
      OutcomeView(HttpError(status), now) == Error(Escaped("GitHub API error: " + IntToString(status)))
  {
    StatusMessageKept(status);
  }

  /** The status shown for a generic HTTP error can be read back from the message. */
  lemma HttpErrorStatusReadBack(status: int, now: int)
    requires status != 403 && status != 404
    ensures var v := OutcomeView(HttpError(status), now);
      var prefix := "GitHub API error: ";
      && v.Error?
      && |v.error.text| > |prefix|
      && v.error.text[..|prefix|] == prefix
      && ParseInt(v.error.text[|prefix|..]) == Some(status)
  {
    StatusMessageKept(status);
    var prefix := "GitHub API error: ";
    var m := prefix + IntToString(status);
    assert m[|prefix|..] == IntToString(status);
    ParseIntToString(status);
  }

  /** A rejected request whose error is a TypeError or mentions "Failed to fetch" shows the connectivity message. */
  lemma NetworkFailureView(e: JsError, now: int)
    requires e.name == "TypeError" || Contains(e.message, NetworkMarker)
    ensures OutcomeView(Failed(e), now) == Error(Escaped(ConnectivityMessage))
  {
  }

  /** Any other rejection, such as a body that is not JSON, shows the error's own message. */
  lemma OtherFailureView(e: JsError, now: int)
    requires e.name != "TypeError" && !Contains(e.message, NetworkMarker)
    ensures OutcomeView(Failed(e), now) == Error(Escaped(e.message))
  {
  }

  /** A JSON parse failure, whose message does not mention "Failed to fetch", shows that message. */
  lemma SyntaxErrorView(now: int)
    ensures OutcomeView(Failed(JsError("SyntaxError", "Unexpected token")), now) == Error(Escaped("Unexpected token"))
  {
    NoMarkerWithoutF("Unexpected token");
  }

  /** The browser's fetch rejection shows the connectivity message, which differs from every HTTP error's. */
  lemma FetchRejectionView(status: int, now: int)
    ensures OutcomeView(Failed(JsError("TypeError", NetworkMarker)), now) == Error(Escaped(ConnectivityMessage))
    ensures OutcomeView(HttpError(status), now) != Error(Escaped(ConnectivityMessage))
  {
    HttpErrorView(status, now);
    var m := OutcomeView(HttpError(status), now).error.text;
    assert ConnectivityMessage[0] == 'U';
    if status == 403 {
      assert m[0] == 'G';
    } else if status == 404 {
      assert m[0] == 'G';
    } else {
      assert m == "GitHub API error: " + IntToString(status);
      assert m[0] == 'G';
    }
  }

  /** The error view is shown exactly when the request did not end with a parsed body. */
  lemma ErrorExactlyOnFailure(outcome: Outcome, now: int)
    ensures OutcomeView(outcome, now).Error? <==> !outcome.Ok?
    ensures OutcomeView(outcome, now) != Loading && OutcomeView(outcome, now) != Unrendered
  {
  }

  /** Missing or empty items show the empty state; otherwise one card per item, in order. */
  lemma EmptyOrList(items: Option<seq<Repo>>, now: int)
    ensures OutcomeView(Ok(items), now).Empty? <==> items.None? || items.value == []
    ensures items.Some? && items.value != [] ==>
      var v := OutcomeView(Ok(items), now);
      && v.List?
      && |v.cards| == |items.value|
      && forall i :: 0 <= i < |items.value| ==> v.cards[i] == CreateRepoCard(items.value[i], now)
  {
  }

  /** The widget: a container that may be missing, the `loading` flag, and what the container shows. */
  class ReposFeed {
    const hasContainer: bool
    const limit: int
    var loading: bool
    var view: View

    /** `options.limit || 10`: an absent or zero limit falls back to ten. */
    constructor (containerFound: bool, requestedLimit: Option<int>)
      ensures hasContainer == containerFound
      ensures limit == if requestedLimit.Some? && requestedLimit.value != 0 then requestedLimit.value else 10
      ensures !loading && view == Unrendered
    {
      hasContainer := containerFound;
      limit := if requestedLimit.Some? && requestedLimit.value != 0 then requestedLimit.value else 10;
      loading := false;
      view := Unrendered;
    }

    method ShowLoading()
      modifies this`view
      ensures view == if hasContainer then Loading else old(view)
    {
      if hasContainer {
        view := Loading;
      }
    }

    method ShowError(message: string)
      modifies this`view
      ensures view == if hasContainer then Error(Escaped(message)) else old(view)
    {
      if hasContainer {
        view := Error(Escaped(message));
      }
    }

    /** Without a container nothing changes; an empty list shows the short empty message. */
    method DisplayRepos(repos: seq<Repo>, now: int)
      modifies this`view
      ensures !hasContainer ==> view == old(view)
      ensures hasContainer && repos == [] ==> view == Empty(NoReposMessage)
      ensures hasContainer && repos != [] ==> view == List(Cards(repos, now))
    {
      if !hasContainer {
        return;
      }
      if |repos| == 0 {
        view := Empty(NoReposMessage);
        return;
      }
      view := List(Cards(repos, now));
    }

    /** The part of `fetchRepos` before the request is awaited. */
    method BeginFetch()
      modifies this`loading, this`view
      ensures loading
      ensures view == if hasContainer then Loading else old(view)
    {
      loading := true;
      ShowLoading();
    }

    /** The part of `fetchRepos` after the request has ended, whatever was shown meanwhile. */
    method CompleteFetch(outcome: Outcome, now: int)
      modifies this`loading, this`view
      ensures !loading
      ensures view == if hasContainer then OutcomeView(outcome, now) else old(view)
    {
      var thrown: Option<JsError> := None;
      match outcome {
        case HttpError(status) =>
          thrown := Some(StatusError(status));
        case Failed(e) =>
          thrown := Some(e);
        case Ok(items) =>
          if items.None? || |items.value| == 0 {
            if hasContainer {
              view := Empty(EmptyFeedMessage);
            } else {
              thrown := Some(NullContainerError);
            }
          } else {
            DisplayRepos(items.value, now);
          }
      }
      if thrown.Some? {
        ShowError(CatchMessage(thrown.value));
      }
      loading := false;
    }

    method FetchRepos(outcome: Outcome, now: int)
      modifies this`loading, this`view
      ensures !loading
      ensures view == if hasContainer then OutcomeView(outcome, now) else old(view)
    {
      BeginFetch();
      CompleteFetch(outcome, now);
    }
  }
}

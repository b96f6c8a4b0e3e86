/**
 * The booking store of the club-competition server: two module-level lists of
 * records, `clubs` and `competitions`, loaded once at start-up, and the three
 * request handlers that work on them. Each handler's rendered template or
 * uncaught exception is a Page value; the lists are passed to the read-only
 * handlers and held by a Store object for the one handler that updates them.
 */
module Server {
  import opened Wrappers
  import opened PyInt
  import opened Lookup

  /** A club record as loaded from the clubs file; `points` is kept as loaded (a string). */
  datatype Club = Club(name: string, email: string, points: string)

  /**
   * A competition's `numberOfPlaces`: the loaded file holds a string, and a
   * purchase stores back a Python int.
   */
  datatype Places = Text(text: string) | Number(value: int)

  datatype Competition = Competition(name: string, date: string, numberOfPlaces: Places)

  /** The posted form fields (`request.form`). */
  type Form = map<string, string>

  /** The keys of the record dictionaries; a Python dict is truthy when it has a key. */
  const ClubKeys: set<string> := {"name", "email", "points"}
  const CompetitionKeys: set<string> := {"name", "date", "numberOfPlaces"}

  predicate Truthy(keys: set<string>) {
    keys != {}
  }

  /** The exceptions the handlers let escape (the web framework answers 400 or 500). */
  datatype Error =
    | MissingField(field: string)   // KeyError on request.form
    | NoSuchCompetition             // IndexError: no competition with that name
    | NoSuchClub                    // IndexError: no club with that name
    | PlacesNotInteger              // ValueError from int(request.form['places'])
    | StoredPlacesNotInteger        // ValueError from int(competition['numberOfPlaces'])

  /** What a handler answers: a rendered template, or an escaped exception. */
  datatype Page =
    | Index(loginMessage: string)                                              // index.html
    | Welcome(club: Club, competitions: seq<Competition>, flash: Option<string>) // welcome.html
    | WelcomeByName(clubName: string, competitions: seq<Competition>, message: string)
    | Booking(club: Club, competition: Competition)                            // booking.html
    | Failure(error: Error)

  const EmailNotFound := "Sorry, that email was not found."
  const SomethingWentWrong := "Something went wrong-please try again"
  const BookingComplete := "Great-booking complete!"

  function ClubWithEmail(email: string): Club -> bool {
    (c: Club) => c.email == email
  }

  function ClubNamed(name: string): Club -> bool {
    (c: Club) => c.name == name
  }

  function CompetitionNamed(name: string): Competition -> bool {
    (c: Competition) => c.name == name
  }

  /** Python `int()` applied to a stored `numberOfPlaces`. */
  function StoredInt(p: Places): (r: Option<int>)
    ensures r.Some? <==> p.Number? || IsIntLiteral(p.text)
    ensures p.Number? ==> r == Some(p.value)
  {
    match p
    case Text(s) => ParseInt(s)
    case Number(n) => Some(n)
  }

  /** The places of the first competition with the given name, read as an integer. */
  function PlacesOf(competitions: seq<Competition>, name: string): (r: Option<int>)
    ensures r.Some? ==> HasCompetitionNamed(competitions, name)
  {
    match FirstIndex(competitions, CompetitionNamed(name))
    case Some(i) =>
      assert competitions[i].name == name;
      StoredInt(competitions[i].numberOfPlaces)
    case None => None
  }

  predicate HasClubNamed(clubs: seq<Club>, name: string) {
    exists j :: 0 <= j < |clubs| && clubs[j].name == name
  }

  predicate HasCompetitionNamed(competitions: seq<Competition>, name: string) {
    exists k :: 0 <= k < |competitions| && competitions[k].name == name
  }

  // ---------------------------------------------------------------------------
  // showSummary: log in by email.

  /**
   * The comprehension reads `request.form['email']` once per club, so with no
   * clubs the form is never read and `[0]` raises the IndexError that is caught.
   */
  function ShowSummary(clubs: seq<Club>, competitions: seq<Competition>, form: Form): Page {
    if clubs == [] then Index(EmailNotFound)
    else if "email" !in form then Failure(MissingField("email"))
    else match Head(Filter(clubs, ClubWithEmail(form["email"])))
      case Some(club) => Welcome(club, competitions, None)
      case None => Index(EmailNotFound)
  }

  /** Login shows the first club with the submitted email, and otherwise the "not found" page. */
  lemma ShowSummaryOutcome(clubs: seq<Club>, competitions: seq<Competition>, form: Form)
    ensures var r := ShowSummary(clubs, competitions, form);
      && (r.Welcome? || r.Index? || r.Failure?)
      && (r.Welcome? <==> "email" in form && exists i :: 0 <= i < |clubs| && clubs[i].email == form["email"])
      && (r.Welcome? ==> r.competitions == competitions && r.flash == None)
      && (r.Welcome? ==> exists i :: 0 <= i < |clubs| && clubs[i] == r.club && clubs[i].email == form["email"]
                                     && forall j :: 0 <= j < i ==> clubs[j].email != form["email"])
      && (r.Index? <==> clubs == [] || ("email" in form && forall i :: 0 <= i < |clubs| ==> clubs[i].email != form["email"]))
      && (r.Index? ==> r.loginMessage == EmailNotFound)
      && (r.Failure? <==> clubs != [] && "email" !in form)
      && (r.Failure? ==> r.error == MissingField("email"))
  {
    if clubs != [] && "email" in form {
      var p := ClubWithEmail(form["email"]);
      HeadOfFilter(clubs, p);
      var i := FirstIndex(clubs, p);
      if i.Some? {
        assert clubs[i.value].email == form["email"];
      }
    }
  }

  // ---------------------------------------------------------------------------
  // book: the booking page of a club for a competition, both named in the URL.

  function Book(clubs: seq<Club>, competitions: seq<Competition>, competition: string, club: string): Page {
    match Head(Filter(clubs, ClubNamed(club)))
    case None => Failure(NoSuchClub)
    case Some(foundClub) =>
      match Head(Filter(competitions, CompetitionNamed(competition)))
      case None => Failure(NoSuchCompetition)
      case Some(foundCompetition) =>
        if Truthy(ClubKeys) && Truthy(CompetitionKeys) then Booking(foundClub, foundCompetition)
        else WelcomeByName(club, competitions, SomethingWentWrong)
  }

  /**
   * The booking page shows the first club and the first competition with the
   * given names; a missing one escapes as IndexError (club first), so the
   * "Something went wrong" branch is never taken.
   */
  lemma BookOutcome(clubs: seq<Club>, competitions: seq<Competition>, competition: string, club: string)
    ensures var r := Book(clubs, competitions, competition, club);
      && (r.Booking? || r.Failure?)
      && (r.Booking? <==> HasClubNamed(clubs, club) && HasCompetitionNamed(competitions, competition))
      && (r.Booking? ==> exists j :: 0 <= j < |clubs| && clubs[j] == r.club && clubs[j].name == club
                                     && forall i :: 0 <= i < j ==> clubs[i].name != club)
      && (r.Booking? ==> exists k :: 0 <= k < |competitions| && competitions[k] == r.competition
                                     && competitions[k].name == competition
                                     && forall i :: 0 <= i < k ==> competitions[i].name != competition)
      && (r == Failure(NoSuchClub) <==> !HasClubNamed(clubs, club))
      && (r == Failure(NoSuchCompetition) <==>
            HasClubNamed(clubs, club) && !HasCompetitionNamed(competitions, competition))
  {
    HeadOfFilter(clubs, ClubNamed(club));
    HeadOfFilter(competitions, CompetitionNamed(competition));
    var j := FirstIndex(clubs, ClubNamed(club));
    var k := FirstIndex(competitions, CompetitionNamed(competition));
    if j.Some? {
      assert clubs[j.value].name == club;
    }
    if k.Some? {
      assert competitions[k.value].name == competition;
    }
  }

  /** As written, a booking link naming no known club ends in IndexError, not in the flash message. */
  lemma BookUnknownClubRaises(clubs: seq<Club>, competitions: seq<Competition>, competition: string, club: string)
    requires !HasClubNamed(clubs, club)
    ensures Book(clubs, competitions, competition, club) == Failure(NoSuchClub)
    ensures Book(clubs, competitions, competition, club) != WelcomeByName(club, competitions, SomethingWentWrong)
  {
    BookOutcome(clubs, competitions, competition, club);
  }

  /**
   * The booking page as its error branch intends: a club or competition that
   * is not found leads to the welcome page with "Something went wrong".
   */
  function BookAsIntended(clubs: seq<Club>, competitions: seq<Competition>, competition: string, club: string): Page {
    match (Head(Filter(clubs, ClubNamed(club))), Head(Filter(competitions, CompetitionNamed(competition))))
    case (Some(foundClub), Some(foundCompetition)) => Booking(foundClub, foundCompetition)
    case _ => WelcomeByName(club, competitions, SomethingWentWrong)
  }

  /** The intended booking page never fails: it books both names or flashes the error. */
  lemma BookAsIntendedOutcome(clubs: seq<Club>, competitions: seq<Competition>, competition: string, club: string)
    ensures var r := BookAsIntended(clubs, competitions, competition, club);
      && (r.Booking? <==> HasClubNamed(clubs, club) && HasCompetitionNamed(competitions, competition))
      && (!r.Booking? ==> r == WelcomeByName(club, competitions, SomethingWentWrong))
      && (r.Booking? ==> r == Book(clubs, competitions, competition, club))
  {
    BookOutcome(clubs, competitions, competition, club);
    ClubFound(clubs, club);
    CompetitionFound(competitions, competition);
    HeadOfFilter(competitions, CompetitionNamed(competition));
  }

  // ---------------------------------------------------------------------------
  // purchasePlaces: the one handler that changes the store.

  /** The error a handler step raises, or the value it produces. */
  datatype Result<T> = Ok(value: T) | Err(error: Error)

  /** A competition with the name exists exactly when the search by name finds a position. */
  lemma CompetitionFound(competitions: seq<Competition>, name: string)
    ensures HasCompetitionNamed(competitions, name) <==> FirstIndex(competitions, CompetitionNamed(name)).Some?
  {
    var k := FirstIndex(competitions, CompetitionNamed(name));
    if HasCompetitionNamed(competitions, name) {
      var w :| 0 <= w < |competitions| && competitions[w].name == name;
      assert CompetitionNamed(name)(competitions[w]);
    }
    if k.Some? {
      assert competitions[k.value].name == name;
    }
  }

  /** The comprehension by club name yields nothing exactly when no club has that name. */
  lemma ClubFound(clubs: seq<Club>, name: string)
    ensures HasClubNamed(clubs, name) <==> Head(Filter(clubs, ClubNamed(name))).Some?
  {
    HeadOfFilter(clubs, ClubNamed(name));
    var k := FirstIndex(clubs, ClubNamed(name));
    if HasClubNamed(clubs, name) {
      var w :| 0 <= w < |clubs| && clubs[w].name == name;
      assert ClubNamed(name)(clubs[w]);
    }
    if k.Some? {
      assert clubs[k.value].name == name;
    }
  }

  /** The club the comprehension by name yields is the first club with that name. */
  lemma ClubFoundFirst(clubs: seq<Club>, name: string)
    requires Head(Filter(clubs, ClubNamed(name))).Some?
    ensures exists j :: 0 <= j < |clubs| && clubs[j] == Head(Filter(clubs, ClubNamed(name))).value
                        && clubs[j].name == name && forall i :: 0 <= i < j ==> clubs[i].name != name
  {
    HeadOfFilterIsFirst(clubs, ClubNamed(name));
    var j :| 0 <= j < |clubs| && clubs[j] == Head(Filter(clubs, ClubNamed(name))).value
             && ClubNamed(name)(clubs[j]) && forall i :: 0 <= i < j ==> !ClubNamed(name)(clubs[i]);
    forall i | 0 <= i < j
      ensures clubs[i].name != name
    {
      assert !ClubNamed(name)(clubs[i]);
    }
    assert clubs[j].name == name;
  }

  /**
   * The competition lookup: the position of the first competition named by the
   * form. The form field is read once per competition, so with no competitions
   * the IndexError comes before any KeyError.
   */
  function FindCompetition(competitions: seq<Competition>, form: Form): (r: Result<nat>)
    ensures r.Ok? <==> "competition" in form && HasCompetitionNamed(competitions, form["competition"])
    ensures r.Ok? ==> FirstIndex(competitions, CompetitionNamed(form["competition"])) == Some(r.value)
    ensures r.Err? ==>
      r.error == if competitions != [] && "competition" !in form then MissingField("competition") else NoSuchCompetition
  {
    if competitions == [] then Err(NoSuchCompetition)
    else if "competition" !in form then Err(MissingField("competition"))
    else
      CompetitionFound(competitions, form["competition"]);
      match FirstIndex(competitions, CompetitionNamed(form["competition"]))
      case Some(i) => Ok(i)
      case None => Err(NoSuchCompetition)
  }

  /** The club lookup, with the same reading of the form as the competition lookup. */
  function FindClub(clubs: seq<Club>, form: Form): (r: Result<Club>)
    ensures r.Ok? <==> "club" in form && HasClubNamed(clubs, form["club"])
    ensures r.Ok? ==> exists j :: 0 <= j < |clubs| && clubs[j] == r.value && clubs[j].name == form["club"]
                                  && forall i :: 0 <= i < j ==> clubs[i].name != form["club"]
    ensures r.Err? ==> r.error == if clubs != [] && "club" !in form then MissingField("club") else NoSuchClub
  {
    if clubs == [] then Err(NoSuchClub)
    else if "club" !in form then Err(MissingField("club"))
    else
      ClubFound(clubs, form["club"]);
      match Head(Filter(clubs, ClubNamed(form["club"])))
      case Some(club) => ClubFoundFirst(clubs, form["club"]); Ok(club)
      case None => Err(NoSuchClub)
  }

  /** `int(request.form['places'])`: no range check of any kind. */
  function RequestedPlaces(form: Form): (r: Result<int>)
    ensures r.Ok? <==> "places" in form && IsIntLiteral(form["places"])
    ensures r.Ok? ==> ParseInt(form["places"]) == Some(r.value)
    ensures r.Err? ==> r.error == if "places" !in form then MissingField("places") else PlacesNotInteger
  {
    if "places" !in form then Err(MissingField("places"))
    else match ParseInt(form["places"])
      case Some(n) => Ok(n)
      case None => Err(PlacesNotInteger)
  }

  /**
   * The assignment to `numberOfPlaces`: re-read the stored value as an
   * integer and store back that integer minus the request, in the one record.
   */
  function Deduct(competitions: seq<Competition>, i: nat, required: int): (r: Result<seq<Competition>>)
    requires i < |competitions|
    ensures r.Ok? <==> StoredInt(competitions[i].numberOfPlaces).Some?
    ensures r.Err? ==> r.error == StoredPlacesNotInteger
    ensures r.Ok? ==>
      && |r.value| == |competitions|
      && r.value[i].numberOfPlaces.Number?
      && StoredInt(r.value[i].numberOfPlaces) == Some(StoredInt(competitions[i].numberOfPlaces).value - required)
      && r.value[i].name == competitions[i].name && r.value[i].date == competitions[i].date
      && forall k :: 0 <= k < |competitions| && k != i ==> r.value[k] == competitions[k]
  {
    match StoredInt(competitions[i].numberOfPlaces)
    case None => Err(StoredPlacesNotInteger)
    case Some(available) =>
      Ok(competitions[i := competitions[i].(numberOfPlaces := Number(available - required))])
  }

  /** A purchase's page and the competitions list it leaves behind. */
  datatype Outcome = Outcome(page: Page, competitions: seq<Competition>)

  /**
   * The purchase as a function of the lists before it: find the competition,
   * then the club, then read the requested places, then deduct them. The
   * competition is kept by position because the handler updates the very
   * record the comprehension found.
   */
  function PurchaseSpec(clubs: seq<Club>, competitions: seq<Competition>, form: Form): Outcome {
    match FindCompetition(competitions, form)
    case Err(e) => Outcome(Failure(e), competitions)
    case Ok(i) =>
      match FindClub(clubs, form)
      case Err(e) => Outcome(Failure(e), competitions)
      case Ok(club) =>
        match RequestedPlaces(form)
        case Err(e) => Outcome(Failure(e), competitions)
        case Ok(required) =>
          match Deduct(competitions, i, required)
          case Err(e) => Outcome(Failure(e), competitions)
          case Ok(updated) => Outcome(Welcome(club, updated, Some(BookingComplete)), updated)
  }

  /**
   * Nothing else changes: a failed purchase leaves the list as it was; a
   * successful one touches only the first competition with the posted name,
   * and never a name or a date. Success always shows the welcome page with the
   * updated list and the completion message.
   */
  lemma PurchaseFrame(clubs: seq<Club>, competitions: seq<Competition>, form: Form)
    ensures var r := PurchaseSpec(clubs, competitions, form);
      && |r.competitions| == |competitions|
      && (r.page.Failure? ==> r.competitions == competitions)
      && (!r.page.Failure? ==>
            r.page.Welcome? && r.page.flash == Some(BookingComplete) && r.page.competitions == r.competitions)
    ensures var r := PurchaseSpec(clubs, competitions, form);
      forall k :: 0 <= k < |competitions| ==>
        r.competitions[k].name == competitions[k].name && r.competitions[k].date == competitions[k].date
    ensures var r := PurchaseSpec(clubs, competitions, form);
      forall k :: 0 <= k < |competitions| && r.competitions[k] != competitions[k] ==>
        "competition" in form && FirstIndex(competitions, CompetitionNamed(form["competition"])) == Some(k)
  {
  }

  /**
   * A purchase books exactly when the competition and the club are found, the
   * request is an integer and the stored places read as one; the amount itself
   * is never checked.
   */
  lemma PurchaseBooksIff(clubs: seq<Club>, competitions: seq<Competition>, form: Form)
    ensures PurchaseSpec(clubs, competitions, form).page.Welcome? <==>
      && "competition" in form && "club" in form && "places" in form
      && HasCompetitionNamed(competitions, form["competition"])
      && HasClubNamed(clubs, form["club"])
      && IsIntLiteral(form["places"])
      && PlacesOf(competitions, form["competition"]).Some?
  {
    if "competition" in form {
      CompetitionFound(competitions, form["competition"]);
    }
  }

  /**
   * The checks run in source order and the first that fails decides the
   * error: competition, then club, then the requested places, then the stored places.
   */
  lemma PurchaseChecksInOrder(clubs: seq<Club>, competitions: seq<Competition>, form: Form)
    ensures var r := PurchaseSpec(clubs, competitions, form);
      competitions != [] && "competition" !in form ==> r.page == Failure(MissingField("competition"))
    ensures var r := PurchaseSpec(clubs, competitions, form);
      (competitions == [] || ("competition" in form && !HasCompetitionNamed(competitions, form["competition"])))
      ==> r.page == Failure(NoSuchCompetition)
    ensures var r := PurchaseSpec(clubs, competitions, form);
      "competition" in form && HasCompetitionNamed(competitions, form["competition"]) ==>
        && (clubs != [] && "club" !in form ==> r.page == Failure(MissingField("club")))
        && (clubs == [] || ("club" in form && !HasClubNamed(clubs, form["club"])) ==> r.page == Failure(NoSuchClub))
    ensures var r := PurchaseSpec(clubs, competitions, form);
      "competition" in form && HasCompetitionNamed(competitions, form["competition"])
      && "club" in form && HasClubNamed(clubs, form["club"]) ==>
        && ("places" !in form ==> r.page == Failure(MissingField("places")))
        && ("places" in form && !IsIntLiteral(form["places"]) ==> r.page == Failure(PlacesNotInteger))
        && ("places" in form && IsIntLiteral(form["places"]) && PlacesOf(competitions, form["competition"]).None?
            ==> r.page == Failure(StoredPlacesNotInteger))
  {
    if "competition" in form {
      CompetitionFound(competitions, form["competition"]);
    }
  }

  /** A purchase changes no competition's name, so every lookup by name finds the same position. */
  lemma PurchaseKeepsLookup(clubs: seq<Club>, competitions: seq<Competition>, form: Form, name: string)
    ensures var r := PurchaseSpec(clubs, competitions, form);
      FirstIndex(r.competitions, CompetitionNamed(name)) == FirstIndex(competitions, CompetitionNamed(name))
  {
    var r := PurchaseSpec(clubs, competitions, form);
    PurchaseFrame(clubs, competitions, form);
    FirstIndexSameMatches(r.competitions, CompetitionNamed(name), competitions, CompetitionNamed(name));
  }

  /**
   * When every check passes, the first competition with the posted name
   * reads back as its old value minus the request, and the page shows the
   * first club with the posted name.
   */
  lemma PurchaseSucceeds(clubs: seq<Club>, competitions: seq<Competition>, form: Form,
                         required: int, available: int)
    requires "competition" in form && "club" in form && "places" in form
    requires HasClubNamed(clubs, form["club"])
    requires ParseInt(form["places"]) == Some(required)
    requires PlacesOf(competitions, form["competition"]) == Some(available)
    ensures var r := PurchaseSpec(clubs, competitions, form);
      && r.page.Welcome? && r.page.flash == Some(BookingComplete) && r.page.competitions == r.competitions
      && PlacesOf(r.competitions, form["competition"]) == Some(available - required)
    ensures var r := PurchaseSpec(clubs, competitions, form);
      exists j :: 0 <= j < |clubs| && clubs[j] == r.page.club && clubs[j].name == form["club"]
                  && forall i :: 0 <= i < j ==> clubs[i].name != form["club"]
  {
    var name := form["competition"];
    CompetitionFound(competitions, name);
    var i := FirstIndex(competitions, CompetitionNamed(name)).value;
    assert FindCompetition(competitions, form) == Ok(i);
    assert StoredInt(competitions[i].numberOfPlaces) == Some(available);
    var updated := Deduct(competitions, i, required);
    assert updated.Ok? && |updated.value| == |competitions|;
    assert StoredInt(updated.value[i].numberOfPlaces) == Some(available - required);
    var r := PurchaseSpec(clubs, competitions, form);
    assert r.competitions == updated.value;
    PurchaseKeepsLookup(clubs, competitions, form, name);
  }

  /**
   * Any integer amount is accepted, negative or above what remains: the places
   * become the old value minus the amount, so they can go negative or grow.
   */
  lemma PurchaseAcceptsAnyAmount(clubs: seq<Club>, competitions: seq<Competition>,
                                 competition: string, club: string, available: int, amount: int)
    requires HasClubNamed(clubs, club)
    requires PlacesOf(competitions, competition) == Some(available)
    ensures var r := PurchaseSpec(clubs, competitions,
                                  map["competition" := competition, "club" := club, "places" := ShowInt(amount)]);
      && r.page.Welcome? && r.page.flash == Some(BookingComplete)
      && PlacesOf(r.competitions, competition) == Some(available - amount)
      && (amount > available ==> PlacesOf(r.competitions, competition).value < 0)
      && (amount < 0 ==> PlacesOf(r.competitions, competition).value > available)
  {
    var form := map["competition" := competition, "club" := club, "places" := ShowInt(amount)];
    assert form["competition"] == competition && form["club"] == club && form["places"] == ShowInt(amount);
    ParseShowInt(amount);
    PurchaseSucceeds(clubs, competitions, form, amount, available);
  }

  /**
   * Purchases compose: booking `a` and then `b` places of the same competition
   * leaves the old value minus `a + b`, because the second purchase re-reads
   * the integer the first one stored.
   */
  lemma PurchaseTwiceAdds(clubs: seq<Club>, competitions: seq<Competition>, first: Form, second: Form,
                          available: int, a: int, b: int)
    requires "competition" in first && "club" in first && "places" in first
    requires "competition" in second && "club" in second && "places" in second
    requires second["competition"] == first["competition"]
    requires HasClubNamed(clubs, first["club"]) && HasClubNamed(clubs, second["club"])
    requires PlacesOf(competitions, first["competition"]) == Some(available)
    requires ParseInt(first["places"]) == Some(a) && ParseInt(second["places"]) == Some(b)
    ensures var r1 := PurchaseSpec(clubs, competitions, first);
      var r2 := PurchaseSpec(clubs, r1.competitions, second);
      && r1.page.Welcome? && r2.page.Welcome?
      && PlacesOf(r2.competitions, first["competition"]) == Some(available - a - b)
  {
    var name := first["competition"];
    PurchaseSucceeds(clubs, competitions, first, a, available);
    var r1 := PurchaseSpec(clubs, competitions, first);
    assert PlacesOf(r1.competitions, second["competition"]) == Some(available - a);
    PurchaseSucceeds(clubs, r1.competitions, second, b, available - a);
  }

  /** The in-memory store: the two lists the server loads at start-up. */
  class Store {
    const clubs: seq<Club>
    const competitions: array<Competition>

    constructor(clubs: seq<Club>, competitions: seq<Competition>)
      ensures this.clubs == clubs && this.competitions[..] == competitions
      ensures fresh(this.competitions)
    {
      this.clubs := clubs;
      this.competitions := new Competition[|competitions|](i requires 0 <= i < |competitions| => competitions[i]);
    }

    /**
     * Handles a posted purchase: the page and the competitions afterwards are
     * those of PurchaseSpec. Only the matched competition's element of the
     * array is overwritten; the clubs are never touched.
     */
    method PurchasePlaces(form: Form) returns (page: Page)
      modifies competitions
      ensures page == PurchaseSpec(clubs, old(competitions[..]), form).page
      ensures competitions[..] == PurchaseSpec(clubs, old(competitions[..]), form).competitions
    {
      var found := FindCompetition(competitions[..], form);
      if found.Err? {
        return Failure(found.error);
      }
      var i := found.value;
      var club := FindClub(clubs, form);
      if club.Err? {
        return Failure(club.error);
      }
      var required := RequestedPlaces(form);
      if required.Err? {
        return Failure(required.error);
      }
      var available := StoredInt(competitions[i].numberOfPlaces);
      if available.None? {
        return Failure(StoredPlacesNotInteger);
      }
      ghost var before := competitions[..];
      ghost var updated := before[i := before[i].(numberOfPlaces := Number(available.value - required.value))];
      assert Deduct(before, i, required.value) == Ok(updated);
      competitions[i] := competitions[i].(numberOfPlaces := Number(available.value - required.value));
      assert competitions[..] == updated;
      page := Welcome(club.value, competitions[..], Some(BookingComplete));
    }
  }
}

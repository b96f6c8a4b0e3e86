/**
 * Concrete purchases on the data the booking test suite posts, stating what
 * the server as written does with them: it deducts no club points, applies no
 * 12-place cap, and accepts negative amounts and past competitions; only a
 * non-numeric amount is refused, by the ValueError of `int()`.
 */
module Scenarios {
  import opened Wrappers
  import opened PyInt
  import opened Lookup
  import opened Server

  const TestClubs: seq<Club> := [Club("Club", "c@c.co", "20")]

  function TestCompetitions(date: string, places: string): seq<Competition> {
    [Competition("Comp", date, Text(places))]
  }

  function PurchaseForm(places: string): Form {
    map["competition" := "Comp", "club" := "Club", "places" := places]
  }

  /** Buying `amount` of 25 places leaves 25 - amount; the club's points stay as loaded. */
  lemma PurchaseOnTestData(amount: int)
    ensures var r := PurchaseSpec(TestClubs, TestCompetitions("2026-10-10 10:00:00", "25"), PurchaseForm(ShowInt(amount)));
      && r.page.Welcome? && r.page.club.points == "20"
      && PlacesOf(r.competitions, "Comp") == Some(25 - amount)
  {
    var competitions := TestCompetitions("2026-10-10 10:00:00", "25");
    assert competitions[0].name == "Comp";
    assert FirstIndex(competitions, CompetitionNamed("Comp")) == Some(0);
    assert ParseInt("25") == Some(25) by {
      assert IsDigits("25");
      assert DigitsValue("25") == DigitsValue("2") * 10 + 5 by { assert "25"[..1] == "2"; }
    }
    assert PlacesOf(competitions, "Comp") == Some(25);
    assert TestClubs[0].name == "Club";
    PurchaseAcceptsAnyAmount(TestClubs, competitions, "Comp", "Club", 25, amount);
    ClubFoundFirst(TestClubs, "Club");
  }

  /** Five places: the competition drops to 20 and the club keeps its 20 points. */
  lemma FivePlacesKeepPoints()
    ensures var r := PurchaseSpec(TestClubs, TestCompetitions("2026-10-10 10:00:00", "25"), PurchaseForm("5"));
      r.page.Welcome? && r.page.club.points == "20" && PlacesOf(r.competitions, "Comp") == Some(20)
  {
    PurchaseOnTestData(5);
  }

  /** Thirteen places are accepted: there is no 12-place cap. */
  lemma ThirteenPlacesAccepted()
    ensures var r := PurchaseSpec(TestClubs, TestCompetitions("2026-10-10 10:00:00", "25"), PurchaseForm("13"));
      r.page.Welcome? && PlacesOf(r.competitions, "Comp") == Some(12)
  {
    PurchaseOnTestData(13);
  }

  /** A negative amount is accepted and adds places. */
  lemma NegativeAmountAccepted()
    ensures var r := PurchaseSpec(TestClubs, TestCompetitions("2026-10-10 10:00:00", "25"), PurchaseForm("-1"));
      r.page.Welcome? && PlacesOf(r.competitions, "Comp") == Some(26)
  {
    PurchaseOnTestData(-1);
  }

  /** A competition dated in the past is booked like any other. */
  lemma PastCompetitionAccepted()
    ensures var competitions := [Competition("Past Comp", "2020-01-01 10:00:00", Text("10"))];
      var r := PurchaseSpec(TestClubs, competitions,
                            map["competition" := "Past Comp", "club" := "Club", "places" := "1"]);
      r.page.Welcome? && PlacesOf(r.competitions, "Past Comp") == Some(9)
  {
    var competitions := [Competition("Past Comp", "2020-01-01 10:00:00", Text("10"))];
    assert competitions[0].name == "Past Comp";
    assert FirstIndex(competitions, CompetitionNamed("Past Comp")) == Some(0);
    assert ParseInt("10") == Some(10) by {
      assert IsDigits("10");
      assert DigitsValue("10") == DigitsValue("1") * 10 + 0 by { assert "10"[..1] == "1"; }
    }
    assert TestClubs[0].name == "Club";
    PurchaseAcceptsAnyAmount(TestClubs, competitions, "Past Comp", "Club", 10, 1);
  }

  /** A non-numeric amount raises ValueError and the places are untouched. */
  lemma TextAmountRefused()
    ensures var competitions := TestCompetitions("2026-10-10 10:00:00", "25");
      var r := PurchaseSpec(TestClubs, competitions, PurchaseForm("abc"));
      r.page == Failure(PlacesNotInteger) && r.competitions == competitions
  {
    var competitions := TestCompetitions("2026-10-10 10:00:00", "25");
    var form := PurchaseForm("abc");
    assert form["competition"] == "Comp" && form["club"] == "Club" && form["places"] == "abc";
    assert competitions[0].name == "Comp";
    assert TestClubs[0].name == "Club";
    ParseIntRejects("abc", 0);
    PurchaseChecksInOrder(TestClubs, competitions, form);
    PurchaseFrame(TestClubs, competitions, form);
  }

  /** An unknown email shows the login page with the "not found" message. */
  lemma UnknownEmailNotFound()
    ensures ShowSummary(TestClubs, [], map["email" := "unknown@x.co"]) == Index(EmailNotFound)
  {
    var form := map["email" := "unknown@x.co"];
    assert TestClubs[0].email != "unknown@x.co";
    ShowSummaryOutcome(TestClubs, [], form);
  }
}

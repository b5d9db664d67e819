/**
 * `findService`: the catalog entry a free-text reply names. The reply is
 * trimmed and lower-cased; an entry matches when the reply equals its id or
 * its lower-cased name, or contains either; the first matching entry in
 * catalog order wins.
 */
module Catalog {
  import opened Options
  import opened Text
  import opened Config

  /** The test `findService` applies to one catalog entry, on the cleaned reply `s`. */
  predicate Matches(s: string, svc: ServiceOption) {
    svc.id == s || Lower(svc.name) == s || Contains(s, svc.id) || Contains(s, Lower(svc.name))
  }

  /** Index of the first catalog entry, from `from` on, that `s` matches. */
  function FirstMatch(s: string, from: nat := 0): (r: Option<nat>)
    requires from <= |Services|
    decreases |Services| - from
    ensures r.Some? ==> from <= r.value < |Services|
  {
    if from == |Services| then None
    else if Matches(s, Services[from]) then Some(from)
    else FirstMatch(s, from + 1)
  }

  /** The index found is the first from `from` on whose entry matches; with none, nothing is found. */
  lemma {:induction false} FirstMatchIsFirst(s: string, from: nat)
    requires from <= |Services|
    decreases |Services| - from
    ensures var r := FirstMatch(s, from);
            && (r.Some? ==> Matches(s, Services[r.value]))
            && (r.Some? ==> forall j :: from <= j < r.value ==> !Matches(s, Services[j]))
            && (r.None? ==> forall j :: from <= j < |Services| ==> !Matches(s, Services[j]))
  {
    if from < |Services| && !Matches(s, Services[from]) {
      FirstMatchIsFirst(s, from + 1);
    }
  }

  /** `findService(input)`: None stands for `undefined`. */
  function FindService(input: string): (r: Option<ServiceOption>)
    ensures r.Some? ==> r.value in Services
  {
    match FirstMatch(Lower(Trim(input)))
    case None => None
    case Some(i) => Some(Services[i])
  }

  /** The entry found matches the cleaned reply; when none is found, no entry matches it. */
  lemma FindServiceMatches(input: string)
    ensures var r := FindService(input);
            && (r.Some? ==> Matches(Lower(Trim(input)), r.value))
            && (r.None? ==> forall svc :: svc in Services ==> !Matches(Lower(Trim(input)), svc))
  {
    var s := Lower(Trim(input));
    FirstMatchIsFirst(s, 0);
    if FirstMatch(s).None? {
      forall svc | svc in Services ensures !Matches(s, svc) {
        var j :| 0 <= j < |Services| && Services[j] == svc;
      }
    }
  }

  /** The entry found is the first one in catalog order that matches. */
  lemma FindServiceIsFirst(input: string, j: nat)
    requires j < |Services| && Matches(Lower(Trim(input)), Services[j])
    ensures FindService(input).Some?
    ensures exists i :: 0 <= i <= j && FindService(input) == Some(Services[i])
  {
    var r := FirstMatch(Lower(Trim(input)));
    FirstMatchIsFirst(Lower(Trim(input)), 0);
    assert r.Some? && r.value <= j;
  }

  /** Trimming and lower-casing the reply first (as the engine does) changes nothing. */
  lemma FindServiceOfCleaned(input: string)
    ensures FindService(Lower(Trim(input))) == FindService(input)
  {
    var s := Lower(Trim(input));
    TrimIsTrimmed(input);
    LowerKeepsTrimmed(Trim(input));
    CleanIsFixed(s);
    assert FirstMatch(Lower(Trim(s))) == FirstMatch(s);
  }

  /** A string none of whose characters is `t[k]` does not contain `t`. */
  lemma {:induction false} AbsentCharBlocks(s: string, t: string, k: nat)
    requires k < |t| && t[k] !in s
    ensures !Contains(s, t)
    decreases |s|
  {
    if |t| <= |s| {
      assert s[..|t|][k] == s[k];
    }
    if |s| > 0 {
      assert forall c :: c in s[1..] ==> c in s;
      AbsentCharBlocks(s[1..], t, k);
    }
  }

  lemma {:induction false} StartsWithContains(s: string, t: string)
    requires StartsWith(s, t)
    ensures Contains(s, t)
  {
  }

  /** Any reply that mentions `bridal` resolves to Bridal Glam, the first entry, whatever else it says. */
  lemma MentionsBridal(input: string)
    requires Contains(Lower(Trim(input)), "bridal")
    ensures FindService(input) == Some(Services[0])
  {
    assert Services[0].id == "bridal";
    ResolvesTo(Lower(Trim(input)), 0);
  }

  lemma LowerNames()
    ensures Lower(Services[0].name) == "bridal glam"
    ensures Lower(Services[1].name) == "party glam"
    ensures Lower(Services[2].name) == "natural beat"
    ensures Lower(Services[3].name) == "bridal trial"
  {
  }

  lemma PartyNotBridal()
    ensures !Matches("party", Services[0])
  {
    LowerNames();
    AbsentCharBlocks("party", "bridal", 0);
    AbsentCharBlocks("party", "bridal glam", 0);
  }

  /** The first entry that matches is the one found. */
  lemma ResolvesTo(s: string, i: nat)
    requires i < |Services| && Matches(s, Services[i])
    requires forall j :: 0 <= j < i ==> !Matches(s, Services[j])
    ensures FirstMatch(s) == Some(i)
  {
    FirstMatchIsFirst(s, 0);
  }

  /** An entry is not matched when the reply lacks some character of its id and of its name. */
  lemma NotMatchedByChar(s: string, i: nat, k: nat, m: nat)
    requires i < |Services|
    requires k < |Services[i].id| && Services[i].id[k] !in s
    requires m < |Services[i].name| && Lower(Services[i].name)[m] !in s
    ensures !Matches(s, Services[i])
  {
    AbsentCharBlocks(s, Services[i].id, k);
    AbsentCharBlocks(s, Lower(Services[i].name), m);
    assert s[..|s|] == s;
    StartsWithContains(s, s);
  }

  lemma PartyFound()
    ensures FirstMatch("party") == Some(1)
  {
    LowerNames();
    NotMatchedByChar("party", 0, 0, 0);
    ResolvesTo("party", 1);
  }

  lemma NaturalFound(s: string)
    requires s == "natural"
    ensures FirstMatch(s) == Some(2)
  {
    assert !Matches(s, Services[0]) && !Matches(s, Services[1]) by {
      LowerNames();
      NotMatchedByChar(s, 0, 0, 0);
      NotMatchedByChar(s, 1, 0, 0);
    }
    assert Matches(s, Services[2]) by {
      assert Services[2].id == s;
    }
    ThirdFound(s);
  }

  /** With the first two entries unmatched, a match of the third is the one found. */
  lemma ThirdFound(s: string)
    requires !Matches(s, Services[0]) && !Matches(s, Services[1]) && Matches(s, Services[2])
    ensures FirstMatch(s) == Some(2)
  {
    assert FirstMatch(s, 2) == Some(2);
    assert FirstMatch(s, 1) == Some(2);
  }

  lemma TrialFound()
    ensures FirstMatch("trial") == Some(3)
  {
    LowerNames();
    NotMatchedByChar("trial", 0, 0, 0);
    NotMatchedByChar("trial", 1, 0, 0);
    NotMatchedByChar("trial", 2, 0, 0);
    ResolvesTo("trial", 3);
  }

  /** Each service id names its own entry. */
  lemma IdsResolve()
    ensures FirstMatch("bridal") == Some(0)
    ensures FirstMatch("party") == Some(1)
    ensures FirstMatch("natural") == Some(2)
    ensures FirstMatch("trial") == Some(3)
  {
    ResolvesTo("bridal", 0);
    PartyFound();
    NaturalFound("natural");
    TrialFound();
  }

  lemma PartyGlamFound(s: string)
    requires s == "party glam"
    ensures FirstMatch(s) == Some(1)
  {
    LowerNames();
    NotMatchedByChar(s, 0, 0, 0);
    ResolvesTo(s, 1);
  }

  lemma NaturalBeatNotEarlier(s: string)
    requires s == "natural beat"
    ensures !Matches(s, Services[0]) && !Matches(s, Services[1])
  {
    LowerNames();
    assert 'd' !in s && 'p' !in s;
    NotMatchedByChar(s, 0, 2, 2);
    NotMatchedByChar(s, 1, 0, 0);
  }

  lemma NaturalBeatFound(s: string)
    requires s == "natural beat"
    ensures FirstMatch(s) == Some(2)
  {
    NaturalBeatNotEarlier(s);
    assert Matches(s, Services[2]) by {
      LowerNames();
    }
    ThirdFound(s);
  }

  lemma BridalTrialFound()
    ensures FirstMatch("bridal trial") == Some(0)
  {
    assert "bridal trial"[..6] == "bridal";
    StartsWithContains("bridal trial", "bridal");
    ResolvesTo("bridal trial", 0);
  }

  /**
   * Each lower-cased service name resolves, except that `bridal trial` contains
   * the id `bridal` of the earlier Bridal Glam entry and so resolves to it.
   */
  lemma NamesResolve()
    ensures FirstMatch("bridal glam") == Some(0)
    ensures FirstMatch("party glam") == Some(1)
    ensures FirstMatch("natural beat") == Some(2)
    ensures FirstMatch("bridal trial") == Some(0)
  {
    LowerNames();
    ResolvesTo("bridal glam", 0);
    PartyGlamFound("party glam");
    NaturalBeatFound("natural beat");
    BridalTrialFound();
  }
}

/**
 * The membership records and the rules attached to them: structures and their
 * ancestor searches, a person's adhesion of the moment and the rights derived
 * from it, responsible functions and the number validators.
 */
module MembersModels {

  import opened Common
  import opened Calendar
  import opened Text

  /** A structure of the organisation tree (type and optional subtype codes). */
  datatype Structure = Structure(id: nat, number: string, name: string, kind: int, subtype: Option<int>)

  /** A nomination of an adhesion to a function at a structure. */
  datatype Nomination = Nomination(structure: Structure, code: string, category: Option<int>, main: bool)

  /**
   * An adhesion: the season it is for, the day it was taken, the category of its
   * rate, the structure it belongs to and that structure's parent, and its
   * nominations.
   */
  datatype Adhesion = Adhesion(season: int, date: Date, rateCategory: Option<int>,
                               structure: Structure, parent: Option<Structure>, nominations: seq<Nomination>)

  /** A person as the access rules see them. */
  datatype Person = Person(isSuperuser: bool, adhesions: seq<Adhesion>)

  // ---------------------------------------------------------------------------
  // Structures

  /** The first structure of the list whose type is in `kinds`. */
  function FirstOfKind(chain: seq<Structure>, kinds: set<int>): (r: Option<Structure>)
    ensures r.None? <==> forall i :: 0 <= i < |chain| ==> chain[i].kind !in kinds
    ensures r.Some? ==> r.value.kind in kinds
    ensures r.Some? ==> exists i :: (0 <= i < |chain| && chain[i] == r.value
      && forall j :: 0 <= j < i ==> chain[j].kind !in kinds)
  {
    if chain == [] then None
    else if chain[0].kind in kinds then Some(chain[0])
    else
      var r := FirstOfKind(chain[1..], kinds);
      assert forall j :: 1 <= j < |chain| ==> chain[j] == chain[1..][j - 1];
      r
  }

  /**
   * `Structure.region`: the nearest region (type 6) walking up from the structure
   * itself; `chain` is the structure followed by its ancestors, nearest first.
   */
  function Region(chain: seq<Structure>): Option<Structure> {
    FirstOfKind(chain, {6})
  }

  /** `Structure.sla`: the nearest local structure or national centre (types 10, 11, 15). */
  function Sla(chain: seq<Structure>): Option<Structure> {
    FirstOfKind(chain, {10, 11, 15})
  }

  /** A region is its own region, and a structure with no region above it has none. */
  lemma RegionSearch(chain: seq<Structure>)
    ensures chain != [] && chain[0].kind == 6 ==> Region(chain) == Some(chain[0])
    ensures Region(chain).Some? ==> Region(chain).value in chain && Region(chain).value.kind == 6
    ensures Region(chain).None? <==> forall s :: s in chain ==> s.kind != 6
  {
    if Region(chain).None? {
      forall s | s in chain
        ensures s.kind != 6
      {
        var i :| 0 <= i < |chain| && chain[i] == s;
      }
    }
  }

  /** `StructureQuerySet.centers()`: national centres, and local structures of the "centre" subtype. */
  predicate IsCenter(s: Structure) {
    s.kind == 15 || ((s.kind == 10 || s.kind == 11) && s.subtype == Some(1))
  }

  function Centers(structures: seq<Structure>): (r: seq<Structure>)
    ensures forall s :: s in r <==> s in structures && IsCenter(s)
  {
    Where(structures, IsCenter)
  }

  /** Every centre is its own local structure: its `sla` is itself. */
  lemma CenterIsOwnSla(chain: seq<Structure>)
    requires chain != [] && IsCenter(chain[0])
    ensures Sla(chain) == Some(chain[0])
  {
  }

  // ---------------------------------------------------------------------------
  // A person's adhesion of the moment

  /**
   * The seasons `Person.adhesion` looks at: the season of the current year before
   * September, both in September (renewal month), the next one from October.
   */
  function AdhesionSeasons(today: Date): (seasons: set<int>)
    ensures today.year + 1 in seasons <==> today.month >= 9
    ensures today.year in seasons <==> today.month <= 9
    ensures forall s :: s in seasons ==> s == today.year || s == today.year + 1
  {
    if today.month < 9 then {today.year}
    else if today.month == 9 then {today.year, today.year + 1}
    else {today.year + 1}
  }

  /** The adhesion with the latest season among those in `seasons`; on ties, the first listed. */
  function Latest(adhesions: seq<Adhesion>, seasons: set<int>): (r: Option<Adhesion>)
    ensures r.None? <==> forall a :: a in adhesions ==> a.season !in seasons
    ensures r.Some? ==> r.value in adhesions && r.value.season in seasons
    ensures r.Some? ==> forall a :: a in adhesions && a.season in seasons ==> a.season <= r.value.season
  {
    if adhesions == [] then None
    else
      var rest := Latest(adhesions[1..], seasons);
      assert forall a :: a in adhesions <==> a == adhesions[0] || a in adhesions[1..];
      var a := adhesions[0];
      if a.season !in seasons then rest
      else if rest.Some? && rest.value.season > a.season then rest
      else Some(a)
  }

  /** `Person.adhesion`. */
  function CurrentAdhesion(p: Person, today: Date): Option<Adhesion> {
    Latest(p.adhesions, AdhesionSeasons(today))
  }

  /** `Person.is_staff`: exactly the superusers. */
  predicate IsStaff(p: Person) {
    p.isSuperuser
  }

  /** `Person.is_active`: a superuser, or a person with an adhesion of the moment. */
  predicate IsActive(p: Person, today: Date) {
    p.isSuperuser || CurrentAdhesion(p, today).Some?
  }

  /** Number of the Bécours centre. */
  const BecoursNumber := "2700000500"

  /** `Person.is_becours`: a superuser, or nominated at the Bécours centre in the adhesion of the moment. */
  predicate IsBecours(p: Person, today: Date) {
    p.isSuperuser
    || (CurrentAdhesion(p, today).Some?
        && exists n :: n in CurrentAdhesion(p, today).value.nominations && n.structure.number == BecoursNumber)
  }

  /**
   * Who may log in: a non-superuser is active exactly when they hold an adhesion
   * for a season of the window; staff and Bécours rights imply being active.
   */
  lemma ActiveRule(p: Person, today: Date)
    ensures IsActive(p, today) <==> p.isSuperuser || exists a :: a in p.adhesions && a.season in AdhesionSeasons(today)
    ensures IsStaff(p) ==> IsActive(p, today)
    ensures IsBecours(p, today) ==> IsActive(p, today)
  {
  }

  /**
   * The login tests: an adhesion of season 2015 still lets its holder in on
   * 30 September 2015, the renewal month, and no longer on 1 October 2015.
   */
  lemma LoginTestDates(a: Adhesion)
    requires a.season == 2015
    ensures IsActive(Person(false, [a]), Date(2015, 9, 30))
    ensures !IsActive(Person(false, [a]), Date(2015, 10, 1))
  {
    assert a in [a];
    assert 2015 in AdhesionSeasons(Date(2015, 9, 30));
  }

  // ---------------------------------------------------------------------------
  // Nominations

  /** The function codes of responsible nominations. */
  const ResponsibleCodes: set<string> := {"PRE", "RRR", "RRI", "RESLA", "RESR", "RCP", "RESSV", "RUO", "RUC", "RUE", "RUA"}

  /** `Nomination.is_responsible`. */
  predicate IsResponsible(n: Nomination) {
    n.code in ResponsibleCodes
  }

  /**
   * A nomination is responsible iff its function code is one of the eleven
   * listed codes: president, regional, SLA, permanent-centre, holiday-service
   * and unit leaders; the eleven codes are distinct.
   */
  lemma ResponsibleIffListed(n: Nomination)
    ensures IsResponsible(n) <==> n.code in ["PRE", "RRR", "RRI", "RESLA", "RESR", "RCP", "RESSV", "RUO", "RUC", "RUE", "RUA"]
    ensures |ResponsibleCodes| == 11
  {
  }

  // ---------------------------------------------------------------------------
  // Numbers

  /** The n characters of s from index i are ASCII digits. */
  predicate DigitRunAt(s: string, i: nat, n: nat) {
    i + n <= |s| && AllDigits(s[i..i + n])
  }

  /** Some n consecutive characters of s are ASCII digits (a regular-expression search for `\d{n}`). */
  predicate HasDigitRun(s: string, n: nat) {
    exists i: nat :: i <= |s| && DigitRunAt(s, i, n)
  }

  /** A structure number passes its field: at most 10 characters, holding 10 digits in a row. */
  predicate StructureNumberValid(s: string) {
    |s| <= 10 && HasDigitRun(s, 10)
  }

  /** A member number passes its field: at most 6 characters, holding 6 digits in a row. */
  predicate PersonNumberValid(s: string) {
    |s| <= 6 && HasDigitRun(s, 6)
  }

  /** Together the length limit and the search accept exactly the strings of n digits. */
  lemma DigitRunExact(s: string, n: nat)
    ensures (|s| <= n && HasDigitRun(s, n)) <==> (|s| == n && AllDigits(s))
  {
    if |s| == n && AllDigits(s) {
      assert s[0..n] == s;
      assert DigitRunAt(s, 0, n);
    }
    if |s| <= n && HasDigitRun(s, n) {
      var i: nat :| i <= |s| && DigitRunAt(s, i, n);
      assert i == 0 && s[0..n] == s;
    }
  }

  /** Structure numbers are exactly 10 digits, member numbers exactly 6. */
  lemma NumberValidators(s: string)
    ensures StructureNumberValid(s) <==> |s| == 10 && AllDigits(s)
    ensures PersonNumberValid(s) <==> |s| == 6 && AllDigits(s)
  {
    DigitRunExact(s, 10);
    DigitRunExact(s, 6);
  }
}

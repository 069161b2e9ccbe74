/**
 * The team abbreviations of src/data_collection/collect_schedule_html.py
 * (lines 14-69): ESPN's spellings, the database's thirty abbreviations and
 * the lookup from one to the other.
 */
module EspnAbbreviations {
  import opened Wrappers
  import opened Text

  /** The thirty abbreviations of the teams table. */
  const DbAbbrevs: set<string> := {
    "ATL", "BKN", "BOS", "CHA", "CHI", "CLE", "DAL", "DEN", "DET", "GSW", "HOU", "IND", "LAC", "LAL", "MEM",
    "MIA", "MIL", "MIN", "NOP", "NYK", "OKC", "ORL", "PHI", "PHX", "POR", "SAC", "SAS", "TOR", "UTA", "WAS"}

  /**
   * `ESPN_TO_DB_ABBREV`: each ESPN spelling, in upper and in lower case,
   * with the database abbreviation it stands for; `None` for a string that
   * is not a key of the table.
   */
  function EspnToDb(a: string): (r: Option<string>)
    ensures r.Some? ==> r.value in DbAbbrevs
  {
    match a
    case "GS" | "gs" | "WARRIORS" | "warriors" => Some("GSW")
    case "WSH" | "wsh" | "WIZARDS" | "wizards" => Some("WAS")
    case "NO" | "no" | "PELICANS" | "pelicans" => Some("NOP")
    case "NY" | "ny" => Some("NYK")
    case "SA" | "sa" | "SPURS" | "spurs" => Some("SAS")
    case "UTAH" | "utah" | "JAZZ" | "jazz" => Some("UTA")
    case "SUNS" | "suns" => Some("PHX")
    case "KINGS" | "kings" => Some("SAC")
    case "LAKERS" | "lakers" => Some("LAL")
    case "CLIPPERS" | "clippers" => Some("LAC")
    case "HEAT" | "heat" => Some("MIA")
    case "BUCKS" | "bucks" => Some("MIL")
    case "TIMBERWOLVES" | "timberwolves" => Some("MIN")
    case "THUNDER" | "thunder" => Some("OKC")
    case "MAGIC" | "magic" => Some("ORL")
    case "SIXERS" | "sixers" => Some("PHI")
    case "BLAZERS" | "blazers" => Some("POR")
    case "RAPTORS" | "raptors" => Some("TOR")
    case "HAWKS" | "hawks" => Some("ATL")
    case "NETS" | "nets" => Some("BKN")
    case "CELTICS" | "celtics" => Some("BOS")
    case "HORNETS" | "hornets" => Some("CHA")
    case "BULLS" | "bulls" => Some("CHI")
    case "CAVALIERS" | "cavaliers" => Some("CLE")
    case "MAVERICKS" | "mavericks" => Some("DAL")
    case "NUGGETS" | "nuggets" => Some("DEN")
    case "PISTONS" | "pistons" => Some("DET")
    case "ROCKETS" | "rockets" => Some("HOU")
    case "PACERS" | "pacers" => Some("IND")
    case "GRIZZLIES" | "grizzlies" => Some("MEM")
    case _ => None
  }

  /** The only three-letter ESPN spellings are "WSH" and "wsh". */
  lemma EspnKeyLengths(a: string)
    ensures EspnToDb(a).Some? ==> |a| != 3 || a == "WSH" || a == "wsh"
  {
  }

  lemma DbAbbrevsAreThreeLetters()
    ensures forall a :: a in DbAbbrevs ==> |a| == 3 && a != "WSH" && a != "wsh"
  {
  }

  /** No database abbreviation is an ESPN spelling. */
  lemma NotAnEspnKey(a: string)
    ensures a in DbAbbrevs ==> EspnToDb(a).None?
  {
    EspnKeyLengths(a);
    DbAbbrevsAreThreeLetters();
  }

  /** One pass through the ESPN table: a known ESPN spelling is replaced, anything else kept. */
  function MapOnce(a: string): (r: string)
    ensures r == a || r in DbAbbrevs
    ensures a in DbAbbrevs ==> r == a
  {
    NotAnEspnKey(a);
    match EspnToDb(a)
    case Some(d) => d
    case None => a
  }

  /**
   * The abbreviation `get_team_id_from_abbreviation` queries: upper-cased,
   * mapped once, and kept only if it is a database abbreviation.
   */
  function Normalise(abbreviation: string): (r: Option<string>)
    ensures r.Some? ==> r.value in DbAbbrevs
    ensures r.Some? <==> MapOnce(Upper(abbreviation)) in DbAbbrevs
  {
    var a := MapOnce(Upper(abbreviation));
    if a in DbAbbrevs then Some(a) else None
  }

  predicate NoLower(s: string) {
    forall i :: 0 <= i < |s| ==> !('a' <= s[i] <= 'z')
  }

  lemma UpperOfNoLower(s: string)
    requires NoLower(s)
    ensures Upper(s) == s
  {
  }

  lemma DbUpper()
    ensures forall a :: a in DbAbbrevs ==> Upper(a) == a
  {
    forall a | a in DbAbbrevs
      ensures Upper(a) == a
    {
      UpperOfNoLower(a);
    }
  }

  /** A database abbreviation normalises to itself. */
  lemma DbAbbrevsNormalise(a: string)
    requires a in DbAbbrevs
    ensures Normalise(a) == Some(a)
  {
    DbUpper();
  }

  /** Normalising a normalised abbreviation changes nothing. */
  lemma NormaliseIdempotent(abbreviation: string)
    requires Normalise(abbreviation).Some?
    ensures Normalise(Normalise(abbreviation).value) == Normalise(abbreviation)
  {
    DbAbbrevsNormalise(Normalise(abbreviation).value);
  }

  /**
   * The collection loop maps the scraped (upper-case) abbreviation through
   * the ESPN table before the lookup maps it again; the second pass never
   * changes the result.
   */
  lemma DoubleMappingHarmless(raw: string)
    requires Upper(raw) == raw
    ensures Normalise(MapOnce(raw)) == Normalise(raw)
  {
    if MapOnce(raw) != raw {
      DbAbbrevsNormalise(MapOnce(raw));
    }
  }

  /** `get_team_id_from_abbreviation`; `teams` maps each abbreviation of the teams table to its id. */
  function TeamIdFromAbbreviation(teams: map<string, int>, abbreviation: string): (r: Option<int>)
    ensures r.Some? <==> Normalise(abbreviation).Some? && Normalise(abbreviation).value in teams
    ensures r.Some? ==> r.value == teams[Normalise(abbreviation).value]
  {
    var a := Normalise(abbreviation);
    if a.Some? && a.value in teams then Some(teams[a.value]) else None
  }

  /**
   * The team id the collection loop settles on for a scraped abbreviation:
   * it maps the abbreviation once, asks `get_team_id_from_abbreviation`, and
   * when that finds nothing looks the mapped string up directly.
   */
  function ResolveTeam(teams: map<string, int>, raw: string): (r: Option<int>)
    ensures r.Some? <==> TeamIdFromAbbreviation(teams, MapOnce(raw)).Some? || MapOnce(raw) in teams
  {
    var a := MapOnce(raw);
    match TeamIdFromAbbreviation(teams, a)
    case Some(id) => Some(id)
    case None => if a in teams then Some(teams[a]) else None
  }

  /**
   * When the teams table holds only database abbreviations, the direct
   * lookup never finds a team the normalised lookup missed.
   */
  lemma DirectLookupRedundant(teams: map<string, int>, raw: string)
    requires teams.Keys <= DbAbbrevs
    ensures ResolveTeam(teams, raw) == TeamIdFromAbbreviation(teams, MapOnce(raw))
  {
    var a := MapOnce(raw);
    if a in teams {
      DbAbbrevsNormalise(a);
    }
  }
}

/**
 * `GenreOfFilm`: the closed set of sixteen genres, their declaration ordinals and
 * names, and the case-insensitive name lookup `Enum.TryParse(…, ignoreCase: true)`.
 */
module Genres {
  import opened Wrappers
  import opened Strings

  /** The members in declaration order; the first is the enum default. */
  datatype Genre =
    | Fantasy | Comedy | Drama | Action | Thriller | Adventure | SciFi | Horror
    | Animation | Documentary | Family | Romance | Historical | Crime | Mystery | Short

  const GenreCount: nat := 16

  /** Every member, in declaration order. */
  const AllGenres: seq<Genre> :=
    [Fantasy, Comedy, Drama, Action, Thriller, Adventure, SciFi, Horror,
     Animation, Documentary, Family, Romance, Historical, Crime, Mystery, Short]

  /** `(int)genre`: the position in the declaration. */
  function Ordinal(g: Genre): (n: nat)
    ensures n < GenreCount && |AllGenres| == GenreCount && AllGenres[n] == g
  {
    match g
    case Fantasy => 0     case Comedy => 1     case Drama => 2        case Action => 3
    case Thriller => 4    case Adventure => 5  case SciFi => 6        case Horror => 7
    case Animation => 8   case Documentary => 9 case Family => 10     case Romance => 11
    case Historical => 12 case Crime => 13     case Mystery => 14     case Short => 15
  }

  /** `(GenreOfFilm)n` for a declared ordinal. */
  function FromOrdinal(n: nat): (g: Genre)
    requires n < GenreCount
    ensures Ordinal(g) == n
  {
    AllGenres[n]
  }

  /** The default value of the enumeration, ordinal 0. */
  const DefaultGenre: Genre := Fantasy

  /** `genre.ToString()`: the member name. */
  function Name(g: Genre): string {
    match g
    case Fantasy => "Fantasy"       case Comedy => "Comedy"         case Drama => "Drama"
    case Action => "Action"         case Thriller => "Thriller"     case Adventure => "Adventure"
    case SciFi => "SciFi"           case Horror => "Horror"         case Animation => "Animation"
    case Documentary => "Documentary" case Family => "Family"       case Romance => "Romance"
    case Historical => "Historical" case Crime => "Crime"           case Mystery => "Mystery"
    case Short => "Short"
  }

  /** The enumeration lists each of its sixteen members exactly once. */
  lemma AllGenresEnumerates()
    ensures |AllGenres| == GenreCount
    ensures forall g :: g in AllGenres
    ensures forall i, j :: 0 <= i < j < |AllGenres| ==> AllGenres[i] != AllGenres[j]
  {
    forall g ensures g in AllGenres { assert AllGenres[Ordinal(g)] == g; }
    forall i, j | 0 <= i < j < |AllGenres| ensures AllGenres[i] != AllGenres[j] {
      assert Ordinal(AllGenres[i]) == i && Ordinal(AllGenres[j]) == j;
    }
  }

  /** Ordinals are a bijection between the members and 0..15. */
  lemma OrdinalBijection(g: Genre, n: nat)
    requires n < GenreCount
    ensures FromOrdinal(Ordinal(g)) == g
    ensures Ordinal(g) == n <==> g == FromOrdinal(n)
  {
  }

  /** Distinguishes the lower-cased names: length and first two characters. */
  function NameKey(s: string): (int, char, char) {
    if |s| < 2 then (|s|, ' ', ' ') else (|s|, s[0], s[1])
  }

  /** Two names are equal ignoring case only when they belong to the same member. */
  lemma NamesDistinctIgnoringCase(a: Genre, b: Genre)
    ensures Lower(Name(a)) == Lower(Name(b)) <==> a == b
  {
    if Lower(Name(a)) == Lower(Name(b)) {
      var la, lb := Lower(Name(a)), Lower(Name(b));
      assert NameKey(la) == NameKey(lb);
      assert NameKey(la) == (|Name(a)|, LowerChar(Name(a)[0]), LowerChar(Name(a)[1]));
      assert NameKey(lb) == (|Name(b)|, LowerChar(Name(b)[0]), LowerChar(Name(b)[1]));
    }
  }

  /** `s` is the name of `g`, ignoring case. */
  predicate NamedBy(g: Genre, s: string) {
    Lower(Name(g)) == Lower(s)
  }

  /** Searches `gs` for a member whose lower-cased name is `key`. */
  function FindByName(s: string, gs: seq<Genre>): (r: Option<Genre>)
    ensures r.Some? ==> r.value in gs && NamedBy(r.value, s)
    ensures r.None? ==> forall g :: g in gs ==> !NamedBy(g, s)
  {
    if gs == [] then None
    else if NamedBy(gs[0], s) then Some(gs[0])
    else FindByName(s, gs[1..])
  }

  /**
   * `Enum.TryParse(s, ignoreCase: true, out genre)` restricted to member names: the member
   * whose name equals `s` ignoring case, or nothing.
   */
  function ParseName(s: string): (r: Option<Genre>)
    ensures r.Some? ==> NamedBy(r.value, s)
    ensures r.None? <==> forall g :: !NamedBy(g, s)
  {
    AllGenresEnumerates();
    FindByName(s, AllGenres)
  }

  /** A member name parses back to its member, whatever its case. */
  lemma ParseNameOfName(g: Genre, s: string)
    requires NamedBy(g, s)
    ensures ParseName(s) == Some(g)
  {
    var r := ParseName(s);
    NamesDistinctIgnoringCase(r.value, g);
  }
}

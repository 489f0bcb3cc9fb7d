/** The values the places tool passes around: a place returned by the
    HERE places API, the address parts parsed from it, and coordinates. */
module Records {
  import opened PyText

  /** A coordinate in the form Python's `str()` gives a float, e.g. "32.8242404".
      The tool never computes with coordinates; it tests them for truth and
      formats them into URLs and CSV lines. */
  type Coord = string

  /** Python's truth test of a float (`if latitude and longitude`): only zero
      is false, and `str()` renders zero as "0.0" or "-0.0". */
  predicate Truthy(c: Coord) {
    c != "0.0" && c != "-0.0"
  }

  datatype Category = Category(id: string, title: string)

  /** One item of a results page: `title`, `category`, `vicinity` and
      `position` (a JSON list that is unpacked into latitude and longitude). */
  datatype Place = Place(title: string, category: Category, vicinity: string, position: seq<Coord>)

  datatype Address = Address(street: string, city: string, state: string, zipcode: string)

  /** The line break the API puts between the street and "city, state zip". */
  const Br: string := "<br/>"

  /** Two occurrences of "<br/>" can never overlap. */
  lemma BrUnbordered()
    ensures Unbordered(Br)
  {
    forall k | 0 < k < |Br| ensures !IsBorder(Br, k) {
      assert Br[k..][|Br| - k - 1] == '>';
      assert Br[..|Br| - k][|Br| - k - 1] == Br[|Br| - k - 1];
    }
  }

  /** A string without '<' holds no "<br/>". */
  lemma NoLtNoBr(s: string)
    requires '<' !in s
    ensures !Contains(s, Br)
  {
    forall j: nat | j + |Br| <= |s| ensures !OccursAt(s, Br, j) {
      assert s[j..j + |Br|][0] == s[j] != '<';
    }
  }
}

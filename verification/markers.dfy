/**
 * The fixed marker list of AlphabetFlatList (index.js): the lower-case
 * alphabet followed by `#`, upper-cased and split into single characters.
 */
module Markers {
  import opened Keys

  /** `String.prototype.toUpperCase` on a string, character by character (ASCII only). */
  function UpperAll(s: string): (r: string)
    ensures |r| == |s|
    ensures forall i :: 0 <= i < |s| ==> r[i] == Upper(s[i])
    ensures forall i :: 0 <= i < |r| ==> !IsLower(r[i])
    ensures forall i :: 0 <= i < |s| && !IsLower(s[i]) ==> r[i] == s[i]
  {
    seq(|s|, i requires 0 <= i < |s| => Upper(s[i]))
  }

  /** `'abcdefghijklmnopqrstuvwxyz#'.toUpperCase().split('')`. */
  function AlphabetList(): (r: seq<char>)
    ensures |r| == 27
  {
    UpperAll("abcdefghijklmnopqrstuvwxyz#")
  }

  /** `alphabetList.findIndex(item => item === letter) > -1`. */
  predicate IsMarker(letter: char)
    ensures IsMarker(letter) ==> letter in AlphabetList()
  {
    FindIndex(AlphabetList(), (m: char) => m == letter) > -1
  }

  /** The letters the marker list holds: `A`..`Z` and `#` (see IsMarkerIff). */
  predicate MarkerLetter(c: char)
  {
    IsUpper(c) || c == '#'
  }

  /** The marker at each position: `A` + i for the 26 letters, then `#`. */
  lemma AlphabetListAt(i: int)
    requires 0 <= i < 27
    ensures i < 26 ==> AlphabetList()[i] as int == 'A' as int + i
    ensures i == 26 ==> AlphabetList()[i] == '#'
  {
    var lower := "abcdefghijklmnopqrstuvwxyz#";
    assert AlphabetList()[i] == Upper(lower[i]);
  }

  /** The marker list is exactly `A`..`Z` followed by `#`, and it starts with `A`. */
  lemma AlphabetListExact()
    ensures AlphabetList() == "ABCDEFGHIJKLMNOPQRSTUVWXYZ#"
    ensures AlphabetList()[0] == 'A'
  {
    forall i | 0 <= i < 27
      ensures AlphabetList()[i] == "ABCDEFGHIJKLMNOPQRSTUVWXYZ#"[i]
    {
      AlphabetListAt(i);
    }
  }

  /** No marker occurs twice. */
  lemma AlphabetListDistinct()
    ensures forall i, j :: 0 <= i < j < |AlphabetList()| ==> AlphabetList()[i] != AlphabetList()[j]
  {
    forall i, j | 0 <= i < j < 27
      ensures AlphabetList()[i] != AlphabetList()[j]
    {
      AlphabetListAt(i);
      AlphabetListAt(j);
    }
  }

  /** The markers are exactly the upper-case ASCII letters and `#`. */
  lemma IsMarkerIff(c: char)
    ensures IsMarker(c) <==> MarkerLetter(c)
    ensures IsMarker(c) <==> c in AlphabetList()
  {
    var list := AlphabetList();
    var k := FindIndex(list, (m: char) => m == c);
    if IsUpper(c) {
      var i := c as int - 'A' as int;
      AlphabetListAt(i);
      assert list[i] == c;
    } else if c == '#' {
      AlphabetListAt(26);
      assert list[26] == c;
    } else {
      forall i | 0 <= i < 27
        ensures list[i] != c
      {
        AlphabetListAt(i);
      }
    }
    if c in list {
      var i :| 0 <= i < |list| && list[i] == c;
      assert ((m: char) => m == c)(list[i]);
    }
  }
}

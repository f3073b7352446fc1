/** Generating a move reference: eight distinct symbols drawn from a 26-symbol
    alphabet that leaves out the letters and digits easily confused with one
    another, drawn again until the result is not already in use. */
module MoveReferences {
  import opened Common

  const ReferenceLength: nat := 8

  /** The permissible symbols, letters first, in their declared order. */
  const PermissibleLetters: seq<char> := ['A', 'C', 'E', 'F', 'H', 'J', 'K', 'M', 'N', 'P', 'R', 'T', 'U', 'V', 'W', 'X', 'Y']
  const PermissibleDigits: seq<char> := ['1', '2', '3', '4', '5', '6', '7', '8', '9']
  const PermissibleCharacters: seq<char> := PermissibleLetters + PermissibleDigits

  /** The symbols that can be mistaken for others. */
  const ConfusableCharacters: set<char> := {'0', 'B', 'D', 'G', 'I', 'L', 'O', 'Q', 'S', 'Z'}

  /** A sample of `ReferenceLength` distinct permissible symbols. */
  predicate IsCandidate(s: string) {
    |s| == ReferenceLength &&
    (forall i :: 0 <= i < |s| ==> s[i] in PermissibleCharacters) &&
    (forall i, j :: 0 <= i < j < |s| ==> s[i] != s[j])
  }

  /** The alphabet: 26 distinct symbols. */
  lemma AlphabetSize()
    ensures |PermissibleCharacters| == 26
    ensures forall i, j :: 0 <= i < j < |PermissibleCharacters| ==> PermissibleCharacters[i] != PermissibleCharacters[j]
  {
  }

  /** The alphabet, described independently: the upper-case letters and the
      digits 1 to 9, less the confusable symbols. */
  lemma AlphabetCharacterization(c: char)
    ensures c in PermissibleCharacters <==>
              (('A' <= c <= 'Z') || ('1' <= c <= '9')) && c !in ConfusableCharacters
  {
    LettersCharacterization(c);
    DigitsCharacterization(c);
    assert c in PermissibleCharacters <==> c in PermissibleLetters || c in PermissibleDigits;
  }

  lemma DigitsCharacterization(c: char)
    ensures c in PermissibleDigits <==> '1' <= c <= '9'
  {
    if '1' <= c <= '9' {
      assert PermissibleDigits[c as int - '1' as int] == c;
    }
  }

  lemma LettersCharacterization(c: char)
    ensures c in PermissibleLetters <==> 'A' <= c <= 'Z' && c !in ConfusableCharacters
  {
    var l := PermissibleLetters;
    if 'A' <= c <= 'Z' && c !in ConfusableCharacters {
      if c <= 'F' {
        assert c == l[0] || c == l[1] || c == l[2] || c == l[3];
      } else if c <= 'M' {
        assert c == l[4] || c == l[5] || c == l[6] || c == l[7];
      } else if c <= 'T' {
        assert c == l[8] || c == l[9] || c == l[10] || c == l[11];
      } else {
        assert c == l[12] || c == l[13] || c == l[14] || c == l[15] || c == l[16];
      }
    } else {
      forall i | 0 <= i < |l| ensures l[i] != c {
      }
    }
  }

  /** A reference never contains a confusable symbol. */
  lemma NoConfusableCharacters(s: string)
    requires IsCandidate(s)
    ensures forall i :: 0 <= i < |s| ==> s[i] !in ConfusableCharacters
  {
    forall i | 0 <= i < |s| ensures s[i] !in ConfusableCharacters {
      AlphabetCharacterization(s[i]);
    }
  }

  /** Some sample exists, so a draw is always possible. */
  lemma CandidateExists()
    ensures IsCandidate("ACEFHJKM")
  {
    var s := "ACEFHJKM";
    forall i | 0 <= i < |s| ensures s[i] in PermissibleCharacters {
      AlphabetCharacterization(s[i]);
    }
  }

  /** Draws samples until one is not among `existing`, for at most `maxDraws`
      draws. `drawn` lists the samples in draw order. On success the reference
      is the last sample and every earlier one was in use; on running out every
      sample was in use. */
  method Call(existing: set<string>, maxDraws: nat) returns (reference: Option<string>, drawn: seq<string>)
    ensures forall k :: 0 <= k < |drawn| ==> IsCandidate(drawn[k])
    ensures reference.Some? ==>
              |drawn| >= 1 && reference.value == drawn[|drawn| - 1] &&
              IsCandidate(reference.value) && reference.value !in existing &&
              forall k :: 0 <= k < |drawn| - 1 ==> drawn[k] in existing
    ensures reference.None? ==>
              |drawn| == maxDraws && forall k :: 0 <= k < |drawn| ==> drawn[k] in existing
  {
    drawn := [];
    reference := None;
    CandidateExists();
    while |drawn| < maxDraws
      invariant |drawn| <= maxDraws
      invariant forall k :: 0 <= k < |drawn| ==> IsCandidate(drawn[k]) && drawn[k] in existing
      decreases maxDraws - |drawn|
    {
      var candidate :| IsCandidate(candidate);
      drawn := drawn + [candidate];
      if candidate !in existing {
        reference := Some(candidate);
        return;
      }
    }
  }
}

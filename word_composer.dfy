/** The word being composed by the input method: one array of candidate key
    codes per keystroke, the typed word (one UTF-16 code unit per keystroke),
    the number of upper-case units in it, the touch coordinates of the first
    keystrokes in two fixed-size arrays, and the user's capitalisation and
    preferred-word choices. */
module Composer {
  import opened Wrappers

  /** A Java `char`: one UTF-16 code unit, surrogates included. */
  newtype Char16 = x: int | 0 <= x < 0x1_0000

  /** A Java string, as its code units. */
  type JavaString = seq<Char16>

  /** The Java cast `(char) code`: keeps the low 16 bits of the int, so the
      unit is congruent to the code modulo 2^16. */
  function ToChar(code: int): (ch: Char16)
    ensures (code - ch as int) % 0x1_0000 == 0
  {
    (code % 0x1_0000) as Char16
  }

  /** The number of units of `s` that `isUpperCase` accepts. */
  function CountUpper(s: JavaString, isUpperCase: Char16 -> bool): (n: nat)
    ensures n <= |s|
  {
    if s == [] then 0 else (if isUpperCase(s[0]) then 1 else 0) + CountUpper(s[1..], isUpperCase)
  }

  /** Appending one unit adds one to the count exactly when it is upper case. */
  lemma {:induction false} CountUpperAppend(s: JavaString, c: Char16, isUpperCase: Char16 -> bool)
    ensures CountUpper(s + [c], isUpperCase)
            == CountUpper(s, isUpperCase) + (if isUpperCase(c) then 1 else 0)
  {
    if s != [] {
      assert (s + [c])[1..] == s[1..] + [c];
      CountUpperAppend(s[1..], c, isUpperCase);
    } else {
      assert [c][1..] == [];
    }
  }

  /** Every unit is upper case exactly when the count is the length. */
  lemma {:induction false} CountUpperAll(s: JavaString, isUpperCase: Char16 -> bool)
    ensures CountUpper(s, isUpperCase) == |s|
            <==> forall i :: 0 <= i < |s| ==> isUpperCase(s[i])
  {
    if s != [] {
      CountUpperAll(s[1..], isUpperCase);
      if forall i :: 0 <= i < |s| ==> isUpperCase(s[i]) {
        assert forall i :: 0 <= i < |s| - 1 ==> isUpperCase(s[1..][i]) by {
          forall i | 0 <= i < |s| - 1 ensures isUpperCase(s[1..][i]) {
            assert s[1..][i] == s[i + 1];
          }
        }
      } else if CountUpper(s, isUpperCase) == |s| {
        assert isUpperCase(s[0]);
        forall i | 0 <= i < |s| ensures isUpperCase(s[i]) {
          if i > 0 { assert s[i] == s[1..][i - 1]; }
        }
      }
    }
  }

  /** Two upper-case units at distinct positions. */
  predicate HasTwoUpper(s: JavaString, isUpperCase: Char16 -> bool)
  {
    exists i, j :: 0 <= i < j < |s| && isUpperCase(s[i]) && isUpperCase(s[j])
  }

  /** One upper-case unit. */
  predicate HasUpper(s: JavaString, isUpperCase: Char16 -> bool)
  {
    exists i :: 0 <= i < |s| && isUpperCase(s[i])
  }

  /** The count is positive exactly when some unit is upper case. */
  lemma {:induction false} CountUpperPositive(s: JavaString, isUpperCase: Char16 -> bool)
    ensures CountUpper(s, isUpperCase) > 0 <==> HasUpper(s, isUpperCase)
  {
    if s != [] {
      CountUpperPositive(s[1..], isUpperCase);
      if HasUpper(s[1..], isUpperCase) {
        var i :| 0 <= i < |s| - 1 && isUpperCase(s[1..][i]);
        assert isUpperCase(s[i + 1]);
      }
      if HasUpper(s, isUpperCase) && !isUpperCase(s[0]) {
        var i :| 0 <= i < |s| && isUpperCase(s[i]);
        assert i > 0 && s[1..][i - 1] == s[i];
      }
    }
  }

  /** The count exceeds one exactly when two units are upper case. */
  lemma {:induction false} CountUpperMoreThanOne(s: JavaString, isUpperCase: Char16 -> bool)
    ensures CountUpper(s, isUpperCase) > 1 <==> HasTwoUpper(s, isUpperCase)
  {
    if s != [] {
      CountUpperMoreThanOne(s[1..], isUpperCase);
      CountUpperPositive(s[1..], isUpperCase);
      if HasTwoUpper(s[1..], isUpperCase) {
        var i, j :| 0 <= i < j < |s| - 1 && isUpperCase(s[1..][i]) && isUpperCase(s[1..][j]);
        assert isUpperCase(s[i + 1]) && isUpperCase(s[j + 1]);
      }
      if isUpperCase(s[0]) && HasUpper(s[1..], isUpperCase) {
        var j :| 0 <= j < |s| - 1 && isUpperCase(s[1..][j]);
        assert isUpperCase(s[0]) && isUpperCase(s[j + 1]);
      }
      if HasTwoUpper(s, isUpperCase) {
        var i, j :| 0 <= i < j < |s| && isUpperCase(s[i]) && isUpperCase(s[j]);
        assert s[1..][j - 1] == s[j];
        if i > 0 {
          assert s[1..][i - 1] == s[i];
          assert HasTwoUpper(s[1..], isUpperCase);
        } else {
          assert HasUpper(s[1..], isUpperCase);
        }
      }
    }
  }

  /** The condition under which correctPrimaryJuxtapos swaps the first two
      codes: the primary code came second, behind another real code. */
  predicate SwapsPrimary(primaryCode: int, codes: seq<int>)
  {
    |codes| >= 2 && codes[0] > 0 && codes[1] > 0 && codes[0] != primaryCode && codes[1] == primaryCode
  }

  /** The codes after correctPrimaryJuxtapos. */
  function Juxtaposed(primaryCode: int, codes: seq<int>): (r: seq<int>)
    ensures |r| == |codes| && multiset(r) == multiset(codes)
    ensures SwapsPrimary(primaryCode, codes) ==> r[0] == primaryCode && r[1] == codes[0]
    ensures forall i :: 2 <= i < |codes| ==> r[i] == codes[i]
    ensures !SwapsPrimary(primaryCode, codes) ==> r == codes
  {
    if SwapsPrimary(primaryCode, codes) then
      var r := [primaryCode, codes[0]] + codes[2..];
      assert codes == [codes[0], codes[1]] + codes[2..];
      r
    else codes
  }

  /** Correcting twice changes nothing more, and a corrected array that holds
      the primary code in front of it holds it first. */
  lemma JuxtaposedIdempotent(primaryCode: int, codes: seq<int>)
    ensures Juxtaposed(primaryCode, Juxtaposed(primaryCode, codes)) == Juxtaposed(primaryCode, codes)
    ensures |codes| >= 2 && codes[0] > 0 && codes[1] == primaryCode > 0
            ==> Juxtaposed(primaryCode, codes)[0] == primaryCode
  {
  }

  class WordComposer {
    /** Character.isUpperCase on a code unit. */
    const isUpperCase: Char16 -> bool
    /** BinaryDictionary.MAX_WORD_LENGTH: the size of the coordinate arrays. */
    const maxWordLength: nat

    var codes: seq<array<int>>
    var typedLength: int
    const xCoordinates: array<int>
    const yCoordinates: array<int>
    var preferredWord: Option<JavaString>
    var typedWord: JavaString
    var capsCount: int
    var autoCapitalized: bool
    var isFirstCharCapitalized: bool

    /** The class invariant: the three lengths agree, the caps count is the
        number of upper-case units of the typed word, and the coordinate
        arrays are two distinct arrays of the maximum word length. */
    ghost predicate Valid()
      reads this
    {
      && typedLength == |codes| == |typedWord|
      && capsCount == CountUpper(typedWord, isUpperCase)
      && xCoordinates.Length == maxWordLength
      && yCoordinates.Length == maxWordLength
      && xCoordinates != yCoordinates
    }

    constructor (maxWordLength: nat, isUpperCase: Char16 -> bool)
      ensures Valid() && fresh(xCoordinates) && fresh(yCoordinates)
      ensures this.maxWordLength == maxWordLength && this.isUpperCase == isUpperCase
      ensures codes == [] && typedWord == [] && typedLength == 0 && capsCount == 0
      ensures preferredWord == None && !autoCapitalized && !isFirstCharCapitalized
      ensures !IsFirstCharCapitalized() && !IsAutoCapitalized()
      ensures forall i :: 0 <= i < maxWordLength ==> xCoordinates[i] == 0 && yCoordinates[i] == 0
    {
      this.isUpperCase := isUpperCase;
      this.maxWordLength := maxWordLength;
      codes := [];
      typedWord := [];
      typedLength := 0;
      xCoordinates := new int[maxWordLength](_ => 0);
      yCoordinates := new int[maxWordLength](_ => 0);
      preferredWord := None;
      capsCount := 0;
      autoCapitalized := false;
      isFirstCharCapitalized := false;
    }

    /** The copy constructor: a new list holding the same per-keystroke
        arrays, and the SAME coordinate arrays as the source. */
    constructor Copy(source: WordComposer)
      requires source.Valid()
      ensures Valid()
      ensures isUpperCase == source.isUpperCase && maxWordLength == source.maxWordLength
      ensures codes == source.codes && typedWord == source.typedWord
      ensures typedLength == source.typedLength && capsCount == source.capsCount
      ensures preferredWord == source.preferredWord
      ensures autoCapitalized == source.autoCapitalized
      ensures isFirstCharCapitalized == source.isFirstCharCapitalized
      ensures xCoordinates == source.xCoordinates && yCoordinates == source.yCoordinates
    {
      isUpperCase := source.isUpperCase;
      maxWordLength := source.maxWordLength;
      codes := source.codes;
      preferredWord := source.preferredWord;
      typedWord := source.typedWord;
      capsCount := source.capsCount;
      autoCapitalized := source.autoCapitalized;
      isFirstCharCapitalized := source.isFirstCharCapitalized;
      typedLength := source.typedLength;
      xCoordinates := source.xCoordinates;
      yCoordinates := source.yCoordinates;
    }

    /** Clears the keys registered so far; the coordinate arrays and the
        auto-capitalisation flag are left as they are. */
    method Reset()
      requires Valid()
      modifies this
      ensures Valid()
      ensures codes == [] && typedWord == [] && typedLength == 0 && capsCount == 0
      ensures preferredWord == None && !isFirstCharCapitalized
      ensures autoCapitalized == old(autoCapitalized)
      ensures !IsFirstCharCapitalized() && IsAutoCapitalized() == old(IsAutoCapitalized())
      ensures Size() == 0 && GetTypedWord() == None
    {
      codes := [];
      typedLength := 0;
      isFirstCharCapitalized := false;
      preferredWord := None;
      typedWord := [];
      capsCount := 0;
    }

    /** The number of keystrokes: also the length of the typed word. */
    function Size(): (n: nat)
      requires Valid()
      reads this
      ensures n == |typedWord| && n == typedLength
    {
      |codes|
    }

    /** The codes of one keystroke; None where the list access would throw. */
    function GetCodesAt(index: int): (r: Option<array<int>>)
      requires Valid()
      reads this
      ensures r.Some? <==> 0 <= index < Size()
      ensures r.Some? ==> r.value == codes[index]
    {
      if 0 <= index < |codes| then Some(codes[index]) else None
    }

    /** Adds a keystroke: its unit goes into the typed word, its corrected
        codes into the list, and its coordinates into the arrays while they
        have room. */
    method Add(primaryCode: int, keyCodes: array<int>, x: int, y: int)
      requires Valid()
      requires keyCodes != xCoordinates && keyCodes != yCoordinates
      modifies this, keyCodes, xCoordinates, yCoordinates
      ensures Valid()
      ensures typedWord == old(typedWord) + [ToChar(primaryCode)]
      ensures codes == old(codes) + [keyCodes]
      ensures keyCodes[..] == Juxtaposed(primaryCode, old(keyCodes[..]))
      ensures typedLength == old(typedLength) + 1
      ensures capsCount == old(capsCount) + (if isUpperCase(ToChar(primaryCode)) then 1 else 0)
      ensures old(typedLength) < maxWordLength ==>
                xCoordinates[old(typedLength)] == x && yCoordinates[old(typedLength)] == y
      ensures forall i :: 0 <= i < maxWordLength && i != old(typedLength) ==>
                xCoordinates[i] == old(xCoordinates[i]) && yCoordinates[i] == old(yCoordinates[i])
      ensures preferredWord == old(preferredWord) && autoCapitalized == old(autoCapitalized)
      ensures isFirstCharCapitalized == old(isFirstCharCapitalized)
    {
      var ch := ToChar(primaryCode);
      CountUpperAppend(typedWord, ch, isUpperCase);
      typedWord := typedWord + [ch];
      CorrectPrimaryJuxtapos(primaryCode, keyCodes);
      codes := codes + [keyCodes];
      if typedLength < maxWordLength {
        xCoordinates[typedLength] := x;
        yCoordinates[typedLength] := y;
      }
      typedLength := typedLength + 1;
      if isUpperCase(ch) {
        capsCount := capsCount + 1;
      }
    }

    /** Swaps the first two codes when the primary code is second behind
        another real code, so that the primary code comes first. */
    static method CorrectPrimaryJuxtapos(primaryCode: int, keyCodes: array<int>)
      modifies keyCodes
      ensures keyCodes[..] == Juxtaposed(primaryCode, old(keyCodes[..]))
    {
      if keyCodes.Length < 2 {
        return;
      }
      if keyCodes[0] > 0 && keyCodes[1] > 0 && keyCodes[0] != primaryCode && keyCodes[1] == primaryCode {
        keyCodes[1] := keyCodes[0];
        keyCodes[0] := primaryCode;
      }
    }

    /** Removes the last keystroke and its unit, if there is one. */
    method DeleteLast()
      requires Valid()
      modifies this
      ensures Valid()
      ensures old(Size()) == 0 ==> codes == old(codes) && typedWord == old(typedWord)
      ensures old(Size()) > 0 ==>
                && codes == old(codes)[..old(Size()) - 1]
                && typedWord == old(typedWord)[..old(Size()) - 1]
                && capsCount == old(capsCount)
                                - (if isUpperCase(old(typedWord)[old(Size()) - 1]) then 1 else 0)
      ensures preferredWord == old(preferredWord) && autoCapitalized == old(autoCapitalized)
      ensures isFirstCharCapitalized == old(isFirstCharCapitalized)
    {
      var codesSize := |codes|;
      if codesSize > 0 {
        codes := codes[..codesSize - 1];
        var lastPos := |typedWord| - 1;
        var last := typedWord[lastPos];
        assert typedWord == typedWord[..lastPos] + [last];
        CountUpperAppend(typedWord[..lastPos], last, isUpperCase);
        typedWord := typedWord[..lastPos];
        if isUpperCase(last) {
          capsCount := capsCount - 1;
        }
      }
      if typedLength > 0 {
        typedLength := typedLength - 1;
      }
    }

    /** The word as typed; None (Java's null) while nothing is typed. */
    function GetTypedWord(): (w: Option<JavaString>)
      requires Valid()
      reads this
      ensures w.None? <==> Size() == 0
      ensures w.Some? ==> w.value == typedWord && |w.value| == Size()
    {
      if |codes| == 0 then None else Some(typedWord)
    }

    method SetFirstCharCapitalized(capitalized: bool)
      requires Valid()
      modifies this
      ensures Valid()
      ensures IsFirstCharCapitalized() == capitalized
      ensures codes == old(codes) && typedWord == old(typedWord) && typedLength == old(typedLength)
      ensures capsCount == old(capsCount) && preferredWord == old(preferredWord)
      ensures autoCapitalized == old(autoCapitalized)
    {
      isFirstCharCapitalized := capitalized;
    }

    /** Whether the user capitalised the first character: the flag as last
        set, false after construction and after a reset. */
    function IsFirstCharCapitalized(): (r: bool)
      reads this
      ensures r == isFirstCharCapitalized
    {
      isFirstCharCapitalized
    }

    /** Every typed unit is upper case, and there is at least one. */
    function IsAllUpperCase(): (r: bool)
      requires Valid()
      reads this
      ensures r <==> |typedWord| > 0 && forall i :: 0 <= i < |typedWord| ==> isUpperCase(typedWord[i])
    {
      CountUpperAll(typedWord, isUpperCase);
      capsCount > 0 && capsCount == Size()
    }

    method SetPreferredWord(preferred: Option<JavaString>)
      requires Valid()
      modifies this
      ensures Valid()
      ensures preferredWord == preferred
      ensures codes == old(codes) && typedWord == old(typedWord) && typedLength == old(typedLength)
      ensures capsCount == old(capsCount) && autoCapitalized == old(autoCapitalized)
      ensures isFirstCharCapitalized == old(isFirstCharCapitalized)
    {
      preferredWord := preferred;
    }

    /** The word the user chose, or else the typed word; None only when
        neither exists. */
    function GetPreferredWord(): (w: Option<JavaString>)
      requires Valid()
      reads this
      ensures preferredWord.Some? ==> w == preferredWord
      ensures preferredWord.None? ==> w == GetTypedWord()
      ensures w.None? <==> preferredWord.None? && Size() == 0
    {
      if preferredWord.Some? then preferredWord else GetTypedWord()
    }

    /** More than one typed unit is upper case. */
    function IsMostlyCaps(): (r: bool)
      requires Valid()
      reads this
      ensures r <==> HasTwoUpper(typedWord, isUpperCase)
    {
      CountUpperMoreThanOne(typedWord, isUpperCase);
      capsCount > 1
    }

    method SetAutoCapitalized(auto: bool)
      requires Valid()
      modifies this
      ensures Valid()
      ensures IsAutoCapitalized() == auto
      ensures codes == old(codes) && typedWord == old(typedWord) && typedLength == old(typedLength)
      ensures capsCount == old(capsCount) && preferredWord == old(preferredWord)
      ensures isFirstCharCapitalized == old(isFirstCharCapitalized)
    {
      autoCapitalized := auto;
    }

    /** Whether the word was capitalised automatically: the flag as last
        set, false after construction and kept by a reset. */
    function IsAutoCapitalized(): (r: bool)
      reads this
      ensures r == autoCapitalized
    {
      autoCapitalized
    }
  }

  /** Adding a keystroke and deleting it again restores the size, the typed
      word and the caps count. */
  method AddThenDeleteLast(w: WordComposer, primaryCode: int, keyCodes: array<int>, x: int, y: int)
    requires w.Valid()
    requires keyCodes != w.xCoordinates && keyCodes != w.yCoordinates
    modifies w, keyCodes, w.xCoordinates, w.yCoordinates
    ensures w.Valid()
    ensures w.Size() == old(w.Size()) && w.codes == old(w.codes)
    ensures w.typedWord == old(w.typedWord) && w.capsCount == old(w.capsCount)
  {
    w.Add(primaryCode, keyCodes, x, y);
    w.DeleteLast();
  }
}

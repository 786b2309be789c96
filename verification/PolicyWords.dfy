/** What the text functions of the policy do, and the words its rules look for. */
module PolicyWords {
  import opened PolicyFindings
  import Paths

  // ---------------------------------------------------------------------------------------------
  // Text functions
  // ---------------------------------------------------------------------------------------------

  /** Tab, line feed, vertical tab, form feed, carriage return, and the space. */
  predicate IsBlank(c: char) {
    9 <= c as int <= 13 || c as int == 32
  }

  /** The part of the text from i to j, with nothing but blanks around it, and none at its ends. */
  ghost predicate IsCore(text: string, i: nat, j: nat) {
    && i <= j <= |text|
    && (forall k | 0 <= k < i || j <= k < |text| :: IsBlank(text[k]))
    && (i < j ==> !IsBlank(text[i]) && !IsBlank(text[j - 1]))
  }

  lemma {:induction false} TrimLeftMeans(text: string) returns (i: nat)
    ensures i <= |text| && TrimLeft(text) == text[i..]
    ensures (forall k | 0 <= k < i :: IsBlank(text[k])) && (i < |text| ==> !IsBlank(text[i]))
  {
    if text != "" && IsSpace(text[0]) {
      var rest := TrimLeftMeans(text[1..]);
      i := rest + 1;
      forall k | 0 <= k < i ensures IsBlank(text[k]) {
        assert k > 0 ==> text[1..][k - 1] == text[k];
      }
    } else {
      i := 0;
      assert text[0..] == text;
    }
  }

  lemma {:induction false} TrimRightMeans(text: string) returns (j: nat)
    ensures j <= |text| && TrimRight(text) == text[..j]
    ensures (forall k | j <= k < |text| :: IsBlank(text[k])) && (0 < j ==> !IsBlank(text[j - 1]))
    decreases |text|
  {
    if text != "" && IsSpace(text[|text| - 1]) {
      j := TrimRightMeans(text[..|text| - 1]);
      assert text[..|text| - 1][..j] == text[..j];
      forall k | j <= k < |text| ensures IsBlank(text[k]) {
        assert k < |text| - 1 ==> text[..|text| - 1][k] == text[k];
      }
    } else {
      j := |text|;
      assert text[..|text|] == text;
    }
  }

  /** Trimming cuts off the blanks at both ends of a text, and nothing else. */
  lemma TrimSpaceMeans(text: string) returns (i: nat, j: nat)
    ensures IsCore(text, i, j) && TrimSpace(text) == text[i..j]
  {
    i := TrimLeftMeans(text);
    var length := TrimRightMeans(text[i..]);
    j := i + length;
    assert text[i..][..length] == text[i..j];
    forall k | 0 <= k < i || j <= k < |text| ensures IsBlank(text[k]) {
      assert j <= k ==> text[i..][k - i] == text[k];
    }
    if i < j {
      assert text[i..][length - 1] == text[j - 1];
    }
  }

  lemma CoresAgree(text: string, i: nat, j: nat, i': nat, j': nat)
    requires IsCore(text, i, j) && IsCore(text, i', j')
    ensures text[i..j] == text[i'..j']
  {
    if i < j {
      assert !(i < i') && !(i' < i) && !(j < j') && !(j' < j);
    }
  }

  /** What comes before a character is the beginning of the text up to its first occurrence. */
  lemma {:induction false} BeforeMeans(text: string, c: char)
    ensures var before := Before(text, c);
            before <= text && c !in before && (|before| < |text| ==> text[|before|] == c)
  {
    if text != "" && text[0] != c {
      BeforeMeans(text[1..], c);
      assert text == [text[0]] + text[1..];
    }
  }

  predicate StandsAt(text: string, part: string, i: nat) {
    i + |part| <= |text| && text[i..i + |part|] == part
  }

  /** A part is contained in a text exactly if it stands somewhere in it. */
  lemma {:induction false} ContainsMeans(text: string, part: string)
    ensures Contains(text, part) <==> exists i: nat :: StandsAt(text, part, i)
  {
    if part <= text {
      assert StandsAt(text, part, 0);
    } else if text != "" {
      var rest := text[1..];
      ContainsMeans(rest, part);
      if i: nat :| StandsAt(rest, part, i) {
        assert StandsAt(text, part, i + 1);
      }
      if i: nat :| StandsAt(text, part, i) {
        assert i > 0;
        assert StandsAt(rest, part, i - 1);
      }
    }
  }

  /** The value of a number in decimal digits. */
  function ValueOf(digits: string): int {
    if digits == "" then 0
    else 10 * ValueOf(digits[..|digits| - 1]) + (digits[|digits| - 1] as int - '0' as int)
  }

  lemma {:induction false} DecimalMeans(n: nat)
    ensures ValueOf(Decimal(n)) == n && Decimal(n) != ""
    ensures forall i | 0 <= i < |Decimal(n)| :: '0' <= Decimal(n)[i] <= '9'
  {
    if n >= 10 {
      DecimalMeans(n / 10);
      assert Decimal(n)[..|Decimal(n)| - 1] == Decimal(n / 10);
    } else {
      assert Decimal(n)[..0] == "";
    }
  }

  // ---------------------------------------------------------------------------------------------
  // Words
  // ---------------------------------------------------------------------------------------------

  /** The same letter, in lower case or in upper case. */
  predicate IsLetter(c: char, lower: char) {
    c == lower || (65 <= c as int <= 90 && c as int + 32 == lower as int)
  }

  /** The text is a word in any case, with blanks around it. */
  ghost predicate Says(text: string, word: string) {
    exists i, j :: IsCore(text, i, j) && IsWordAt(text, i, j, word)
  }

  predicate IsWordAt(text: string, i: nat, j: nat, word: string) {
    && i <= j <= |text| && j - i == |word|
    && forall k | 0 <= k < |word| :: IsLetter(text[i + k], word[k])
  }

  ghost predicate IsLowerCase(word: string) {
    forall k | 0 <= k < |word| :: !('A' <= word[k] <= 'Z')
  }

  lemma LowerIsWord(text: string, i: nat, j: nat, word: string)
    requires i <= j <= |text| && IsLowerCase(word)
    ensures Paths.ToLower(text[i..j]) == word <==> IsWordAt(text, i, j, word)
  {
    var lower := Paths.ToLower(text[i..j]);
    if IsWordAt(text, i, j, word) {
      assert |lower| == |word|;
      forall k | 0 <= k < |word| ensures lower[k] == word[k] {
        assert IsLetter(text[i + k], word[k]) && text[i..j][k] == text[i + k];
      }
      assert lower == word;
    } else if lower == word {
      forall k | 0 <= k < |word| ensures IsLetter(text[i + k], word[k]) {
        assert text[i..j][k] == text[i + k] && lower[k] == word[k];
      }
    }
  }

  /** Trimming a text and lowering its case is looking for a word. */
  lemma LoweredSays(text: string, word: string)
    requires IsLowerCase(word)
    ensures Paths.ToLower(TrimSpace(text)) == word <==> Says(text, word)
  {
    hide IsCore, IsWordAt, IsLowerCase;
    var i, j := TrimSpaceMeans(text);
    CoreIsInText(text, i, j);
    LowerIsWord(text, i, j, word);
    if Says(text, word) {
      var i', j' :| IsCore(text, i', j') && IsWordAt(text, i', j', word);
      CoresAgree(text, i, j, i', j');
      CoreIsInText(text, i', j');
      LowerIsWord(text, i', j', word);
    }
  }

  lemma CoreIsInText(text: string, i: nat, j: nat)
    requires IsCore(text, i, j)
    ensures i <= j <= |text|
  {
  }
}

/** `config_file_is_empty_array` of src/server/config.c: decides whether the
    configuration file's text is an empty JSON array, in which case a new
    array is created instead of parsing the file. The buffer is the file's
    text up to its terminating NUL. */
module Config {
  import opened Strings

  /** The class the loop puts a character in: a bracket first, then (only
      for other characters) white space. */
  datatype CharClass = Opening | Closing | SpaceChar | OtherChar

  function ClassOf(c: char): CharClass {
    if c == '[' then Opening
    else if c == ']' then Closing
    else if IsSpace(c) then SpaceChar
    else OtherChar
  }

  /** How many characters of `s` fall in class `k`. */
  function CountClass(s: string, k: CharClass): nat {
    if s == [] then 0
    else CountClass(s[..|s| - 1], k) + (if ClassOf(s[|s| - 1]) == k then 1 else 0)
  }

  /** The loop's verdict as written: one '[' and one ']', and the counter
      named `non_white_space_characters_counter` (which is incremented on
      white space) still zero. */
  predicate EmptyArrayAsWritten(buffer: string) {
    CountClass(buffer, Opening) == 1 && CountClass(buffer, Closing) == 1 && CountClass(buffer, SpaceChar) == 0
  }

  /** The verdict the counter's name evidently intends: one '[', one ']' and
      no character that is neither a bracket nor white space. */
  predicate EmptyArray(buffer: string) {
    CountClass(buffer, Opening) == 1 && CountClass(buffer, Closing) == 1 && CountClass(buffer, OtherChar) == 0
  }

  /** `config_file_is_empty_array` as written: the loop over the buffer with
      its three counters. */
  method ConfigFileIsEmptyArrayAsWritten(buffer: string) returns (empty: bool)
    ensures empty == EmptyArrayAsWritten(buffer)
  {
    var opening := 0;
    var closing := 0;
    var nonWhiteSpace := 0;
    var i := 0;
    while i < |buffer|
      invariant 0 <= i <= |buffer|
      invariant opening == CountClass(buffer[..i], Opening)
      invariant closing == CountClass(buffer[..i], Closing)
      invariant nonWhiteSpace == CountClass(buffer[..i], SpaceChar)
    {
      var c := buffer[i];
      assert buffer[..i + 1][..i] == buffer[..i];
      if c == '[' {
        opening := opening + 1;
      } else if c == ']' {
        closing := closing + 1;
      } else if IsSpace(c) {
        nonWhiteSpace := nonWhiteSpace + 1;
      }
      i := i + 1;
    }
    assert buffer[..i] == buffer;
    empty := opening == 1 && closing == 1 && nonWhiteSpace == 0;
  }

  /** The same loop with the counter incremented on the characters its name
      says; the rest of the model uses this one. */
  method ConfigFileIsEmptyArray(buffer: string) returns (empty: bool)
    ensures empty == EmptyArray(buffer)
  {
    var opening := 0;
    var closing := 0;
    var nonWhiteSpace := 0;
    var i := 0;
    while i < |buffer|
      invariant 0 <= i <= |buffer|
      invariant opening == CountClass(buffer[..i], Opening)
      invariant closing == CountClass(buffer[..i], Closing)
      invariant nonWhiteSpace == CountClass(buffer[..i], OtherChar)
    {
      var c := buffer[i];
      assert buffer[..i + 1][..i] == buffer[..i];
      if c == '[' {
        opening := opening + 1;
      } else if c == ']' {
        closing := closing + 1;
      } else if !IsSpace(c) {
        nonWhiteSpace := nonWhiteSpace + 1;
      }
      i := i + 1;
    }
    assert buffer[..i] == buffer;
    empty := opening == 1 && closing == 1 && nonWhiteSpace == 0;
  }

  /** A class is absent exactly when no character has it. */
  lemma {:induction false} CountClassZero(s: string, k: CharClass)
    ensures CountClass(s, k) == 0 <==> forall i :: 0 <= i < |s| ==> ClassOf(s[i]) != k
  {
    if s != [] {
      var init := s[..|s| - 1];
      CountClassZero(init, k);
      assert forall i :: 0 <= i < |init| ==> init[i] == s[i];
    }
  }

  /** The corrected verdict in plain terms: exactly one '[' and one ']', and
      every other character white space. Bracket order is not checked. */
  lemma EmptyArrayExactly(buffer: string)
    ensures EmptyArray(buffer) <==>
      CountClass(buffer, Opening) == 1 && CountClass(buffer, Closing) == 1 &&
      forall i :: 0 <= i < |buffer| ==> buffer[i] == '[' || buffer[i] == ']' || IsSpace(buffer[i])
  {
    CountClassZero(buffer, OtherChar);
  }

  /** The as-written verdict in plain terms: exactly one '[' and one ']', and
      no white space at all, whatever else the buffer holds. */
  lemma EmptyArrayAsWrittenExactly(buffer: string)
    ensures EmptyArrayAsWritten(buffer) <==>
      CountClass(buffer, Opening) == 1 && CountClass(buffer, Closing) == 1 &&
      forall i :: 0 <= i < |buffer| ==> !IsSpace(buffer[i])
  {
    CountClassZero(buffer, SpaceChar);
    if forall i :: 0 <= i < |buffer| ==> ClassOf(buffer[i]) != SpaceChar {
      forall i | 0 <= i < |buffer|
        ensures !IsSpace(buffer[i])
      {
        assert ClassOf(buffer[i]) != SpaceChar;
      }
    }
  }

  /** The discrepancy: an empty array written with a space inside is not
      recognised as written, while text that is not an array at all is; the
      corrected check answers the other way round in both cases. Bracket
      order is checked by neither. */
  lemma EmptyArrayCounterexamples()
    ensures !EmptyArrayAsWritten("[ ]") && EmptyArray("[ ]")
    ensures EmptyArrayAsWritten("[x]") && !EmptyArray("[x]")
    ensures EmptyArrayAsWritten("][") && EmptyArray("][")
  {
    assert "[ ]"[..2] == "[ " && "[ "[..1] == "[";
    assert "[x]"[..2] == "[x" && "[x"[..1] == "[";
    assert "]["[..1] == "]";
  }
}

/** The boolean-flag parser `str2bool` of the palm detection demo. */
module Flags {
  import opened Results

  /** `str2bool` raises NotImplementedError for a word it does not know. */
  datatype FlagError = NotImplemented

  /** The spellings accepted as true, compared after lowering. */
  const TruthyWords: seq<string> := ["on", "yes", "true", "y", "t"]

  /** The spellings accepted as false, compared after lowering. */
  const FalsyWords: seq<string> := ["off", "no", "false", "n", "f"]

  predicate IsUpper(c: char) {
    'A' <= c <= 'Z'
  }

  /** Lowering of one character (ASCII letters only). */
  function LowerChar(c: char): char {
    if IsUpper(c) then (c as int - 'A' as int + 'a' as int) as char else c
  }

  /** `s.lower()`: every character lowered, in place. */
  function Lower(s: string): (r: string)
    ensures |r| == |s|
    ensures forall i :: 0 <= i < |s| ==> r[i] == LowerChar(s[i])
  {
    if s == [] then [] else [LowerChar(s[0])] + Lower(s[1..])
  }

  /** `str2bool(v)`. */
  function Str2Bool(v: string): (r: Result<bool, FlagError>)
    ensures r == Ok(true) <==> Lower(v) in TruthyWords
    ensures r == Ok(false) <==> Lower(v) in FalsyWords
    ensures r.Err? <==> Lower(v) !in TruthyWords && Lower(v) !in FalsyWords
  {
    if Lower(v) in TruthyWords then Ok(true)
    else if Lower(v) in FalsyWords then Ok(false)
    else Err(NotImplemented)
  }

  /** No word is both a truthy and a falsy spelling, so the answer is well defined. */
  lemma WordSetsDisjoint()
    ensures forall w :: w in TruthyWords ==> w !in FalsyWords
  {
  }

  /** Lowering leaves a string without upper-case letters, so lowering again changes nothing. */
  lemma {:induction false} LowerIdempotent(s: string)
    ensures forall i :: 0 <= i < |Lower(s)| ==> !IsUpper(Lower(s)[i])
    ensures Lower(Lower(s)) == Lower(s)
  {
    if s != [] {
      LowerIdempotent(s[1..]);
      assert Lower(s) == [LowerChar(s[0])] + Lower(s[1..]);
      assert Lower(s)[1..] == Lower(s[1..]);
    }
  }

  /** The parser ignores case: `str2bool(v) == str2bool(v.lower())`. */
  lemma Str2BoolCaseInsensitive(v: string)
    ensures Str2Bool(v) == Str2Bool(Lower(v))
  {
    LowerIdempotent(v);
  }

  /** Two strings that agree after lowering parse to the same answer. */
  lemma Str2BoolSameIgnoringCase(a: string, b: string)
    requires Lower(a) == Lower(b)
    ensures Str2Bool(a) == Str2Bool(b)
  {
  }

  /** Mixed-case spellings from the demo's help text parse as true. */
  lemma Str2BoolTrueExamples()
    ensures Str2Bool("True") == Ok(true)
    ensures Str2Bool("YES") == Ok(true)
  {
    assert Lower("True") == "true" by {
      assert Lower("e") == "e"; assert Lower("ue") == "ue"; assert Lower("rue") == "rue";
    }
    assert Lower("YES") == "yes" by { assert Lower("S") == "s"; assert Lower("ES") == "es"; }
  }

  /** Mixed-case spellings of false parse as false. */
  lemma Str2BoolFalseExamples()
    ensures Str2Bool("False") == Ok(false)
    ensures Str2Bool("oFF") == Ok(false)
  {
    assert Lower("False") == "false" by {
      assert Lower("e") == "e"; assert Lower("se") == "se";
      assert Lower("lse") == "lse"; assert Lower("alse") == "alse";
    }
    assert Lower("oFF") == "off" by { assert Lower("F") == "f"; assert Lower("FF") == "ff"; }
  }

  /** Words outside both lists are refused, the empty string among them. */
  lemma Str2BoolRefusedExamples()
    ensures Str2Bool("1") == Err(NotImplemented)
    ensures Str2Bool("") == Err(NotImplemented)
    ensures Str2Bool("Yess") == Err(NotImplemented)
  {
    assert Lower("1") == "1";
    assert Lower("Yess") == "yess" by {
      assert Lower("s") == "s"; assert Lower("ss") == "ss"; assert Lower("ess") == "ess";
    }
  }
}

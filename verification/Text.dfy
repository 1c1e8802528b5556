// C strings in memory, and strstr on NUL-free strings.
module Text {
  const NUL: char := '\0'

  predicate Contains(text: string, word: string) {
    exists i {:trigger text[i..]} :: 0 <= i <= |text| - |word| && text[i..][..|word|] == word
  }

  lemma ContainsIff(text: string, word: string)
    ensures Contains(text, word) <==> exists before, after :: text == before + word + after
  {
    if Contains(text, word) {
      var i :| 0 <= i <= |text| - |word| && text[i..][..|word|] == word;
      assert text == text[..i] + word + text[i..][|word|..];
    }
    forall before, after | text == before + word + after
      ensures Contains(text, word)
    {
      assert text[|before|..][..|word|] == word;
    }
  }

  // A buffer after read(2) has put a message at its front: no terminator is
  // added, so what follows is what was there before.
  function Overlay(buffer: seq<char>, message: seq<char>): seq<char> {
    message + if |message| <= |buffer| then buffer[|message|..] else []
  }

  // The C string at the front of a piece of memory.
  function UpToNul(chars: seq<char>): string {
    if chars == [] || chars[0] == NUL then "" else [chars[0]] + UpToNul(chars[1..])
  }

  lemma {:induction false} UpToNulIs(chars: seq<char>, s: string)
    requires NUL !in s && s <= chars && (|chars| > |s| ==> chars[|s|] == NUL)
    ensures UpToNul(chars) == s
  {
    if s != [] {
      assert chars[0] == s[0];
      UpToNulIs(chars[1..], s[1..]);
    }
  }

  lemma {:induction false} UpToNulEnds(chars: seq<char>)
    ensures UpToNul(chars) <= chars && NUL !in UpToNul(chars)
    ensures |UpToNul(chars)| < |chars| ==> chars[|UpToNul(chars)|] == NUL
    ensures NUL in chars ==> |UpToNul(chars)| < |chars|
  {
    if chars != [] && chars[0] != NUL {
      UpToNulEnds(chars[1..]);
    }
  }
}

/** Project keys: taken from the name, and made unique in the organization by a counter. */
module ProjectKeys {
  import opened Common
  import Chunker

  // ---- Keys from names -----------------------------------------------------------------------------------------

  predicate IsSpace(c: char) {
    Chunker.IsSpace(c as int)
  }

  predicate IsKeyChar(c: char) {
    'A' <= c <= 'Z' || '0' <= c <= '9'
  }

  function UpperChar(c: char): char {
    if 'a' <= c <= 'z' then (c as int - 32) as char else c
  }

  function Upper(s: string): string {
    if s == "" then "" else [UpperChar(s[0])] + Upper(s[1..])
  }

  function Filter(s: string, keep: char -> bool): (r: string)
    ensures forall i :: 0 <= i < |r| ==> keep(r[i])
  {
    if s == "" then "" else (if keep(s[0]) then [s[0]] else "") + Filter(s[1..], keep)
  }

  /** split(/\s+/).filter(Boolean), where `word` is the word read so far. */
  function Words(s: string, word: string): (ws: seq<string>)
    ensures forall i :: 0 <= i < |ws| ==> |ws[i]| > 0
    decreases |s|
  {
    var done := if word == "" then [] else [word];
    if s == "" then done
    else if IsSpace(s[0]) then done + Words(s[1..], "")
    else Words(s[1..], word + [s[0]])
  }

  function Initials(ws: seq<string>): (r: string)
    requires forall i :: 0 <= i < |ws| ==> |ws[i]| > 0
    ensures |r| == |ws| && forall i :: 0 <= i < |ws| ==> r[i] == ws[i][0]
  {
    if ws == [] then "" else [ws[0][0]] + Initials(ws[1..])
  }

  /** slice(0, n) */
  function Take(s: string, n: nat): string {
    if |s| <= n then s else s[..n]
  }

  function NameWords(name: string): (ws: seq<string>)
    ensures forall i :: 0 <= i < |ws| ==> |ws[i]| > 0
  {
    Words(Filter(Upper(name), c => IsKeyChar(c) || IsSpace(c)), "")
  }

  function NameLetters(name: string): (r: string)
    ensures 1 <= |r| <= 4 && forall i :: 0 <= i < |r| ==> IsKeyChar(UpperChar(r[i]))
  {
    var letters := Take(Filter(name, c => IsKeyChar(UpperChar(c))), 4);
    if letters == "" then "PRJ" else letters
  }

  function ExtractKeyFromName(name: string): string {
    var words := NameWords(name);
    if |words| >= 2 then Take(Initials(words), 5) else Upper(NameLetters(name))
  }

  predicate KeyShape(key: string) {
    1 <= |key| <= 5 && forall i :: 0 <= i < |key| ==> IsKeyChar(key[i])
  }

  lemma {:induction false} WordsKeepChars(s: string, word: string)
    requires forall i :: 0 <= i < |s| ==> IsKeyChar(s[i]) || IsSpace(s[i])
    requires word != "" ==> IsKeyChar(word[0])
    ensures forall i :: 0 <= i < |Words(s, word)| ==> IsKeyChar(Words(s, word)[i][0])
    decreases |s|
  {
    if s != "" {
      WordsKeepChars(s[1..], if IsSpace(s[0]) then "" else word + [s[0]]);
    }
  }

  lemma {:induction false} UpperKeyChars(s: string)
    requires forall i :: 0 <= i < |s| ==> IsKeyChar(UpperChar(s[i]))
    ensures |Upper(s)| == |s| && forall i :: 0 <= i < |s| ==> IsKeyChar(Upper(s)[i])
  {
    if s != "" {
      UpperKeyChars(s[1..]);
    }
  }

  /** Every name gives a key: one to five capitals and digits. */
  lemma ExtractedKeyHasShape(name: string)
    ensures KeyShape(ExtractKeyFromName(name))
  {
    WordsKeepChars(Filter(Upper(name), c => IsKeyChar(c) || IsSpace(c)), "");
    UpperKeyChars(NameLetters(name));
  }

  // ---- The key in one pass ---------------------------------------------------------------------------------------

  /** The name in capitals, with nothing but letters, digits and white space. */
  ghost function KeptText(name: string): string {
    if name == "" then ""
    else
      var c := name[0];
      (if 'a' <= c <= 'z' then [(c as int - 32) as char]
       else if 'A' <= c <= 'Z' || '0' <= c <= '9' || Chunker.IsSpace(c as int) then [c] else "") + KeptText(name[1..])
  }

  /** The letters and digits of the name, in capitals. */
  ghost function KeptLetters(name: string): string {
    if name == "" then ""
    else
      var c := name[0];
      (if 'a' <= c <= 'z' then [(c as int - 32) as char]
       else if 'A' <= c <= 'Z' || '0' <= c <= '9' then [c] else "") + KeptLetters(name[1..])
  }

  /** The characters that follow white space, or that come first. */
  ghost function Starts(text: string, inWord: bool): string {
    if text == "" then ""
    else if Chunker.IsSpace(text[0] as int) then Starts(text[1..], false)
    else (if inWord then "" else [text[0]]) + Starts(text[1..], true)
  }

  lemma SpacesAreNoLetters(c: char)
    ensures IsSpace(c) ==> !('a' <= c <= 'z') && UpperChar(c) == c
  {
  }

  lemma {:induction false} KeptTextIs(name: string)
    ensures Filter(Upper(name), c => IsKeyChar(c) || IsSpace(c)) == KeptText(name)
  {
    if name != "" {
      SpacesAreNoLetters(name[0]);
      KeptTextIs(name[1..]);
      assert Upper(name)[1..] == Upper(name[1..]);
    }
  }

  lemma {:induction false} UpperOfConcat(a: string, b: string)
    ensures Upper(a + b) == Upper(a) + Upper(b)
  {
    if a == "" {
      assert a + b == b;
    } else {
      assert (a + b)[1..] == a[1..] + b;
      UpperOfConcat(a[1..], b);
    }
  }

  lemma {:induction false} UpperAt(s: string)
    ensures |Upper(s)| == |s| && forall i :: 0 <= i < |s| ==> Upper(s)[i] == UpperChar(s[i])
  {
    if s != "" {
      UpperAt(s[1..]);
    }
  }

  lemma {:induction false} KeptLettersIs(name: string)
    ensures Upper(Filter(name, c => IsKeyChar(UpperChar(c)))) == KeptLetters(name)
  {
    if name != "" {
      KeptLettersIs(name[1..]);
      var first := if IsKeyChar(UpperChar(name[0])) then [name[0]] else "";
      UpperOfConcat(first, Filter(name[1..], c => IsKeyChar(UpperChar(c))));
      UpperAt(first);
    }
  }

  lemma {:induction false} InitialsAreStarts(s: string, word: string)
    ensures Initials(Words(s, word)) == (if word == "" then "" else [word[0]]) + Starts(s, word != "")
    decreases |s|
  {
    if s == "" {
      assert word != "" ==> [word][1..] == [];
    } else if IsSpace(s[0]) {
      InitialsAreStarts(s[1..], "");
      assert word != "" ==> ([word] + Words(s[1..], ""))[1..] == Words(s[1..], "");
    } else {
      InitialsAreStarts(s[1..], word + [s[0]]);
    }
  }

  lemma UpperOfTake(s: string, n: nat)
    ensures Upper(Take(s, n)) == Take(Upper(s), n)
  {
    UpperAt(s);
    UpperAt(Take(s, n));
  }

  /**
   The key of a name: the initials of its words, at most five, or the first four letters of its only word, or "PRJ".
   */
  lemma ExtractedKeyIs(name: string)
    ensures var starts, letters := Starts(KeptText(name), false), KeptLetters(name);
            ExtractKeyFromName(name) ==
              if |starts| >= 2 then (if |starts| <= 5 then starts else starts[..5])
              else if letters == "" then "PRJ"
              else if |letters| <= 4 then letters else letters[..4]
  {
    KeptTextIs(name);
    InitialsAreStarts(KeptText(name), "");
    var kept := Filter(name, c => IsKeyChar(UpperChar(c)));
    KeptLettersIs(name);
    UpperAt(kept);
    UpperOfTake(kept, 4);
    UpperAt("PRJ");
  }

  // ---- Unique keys -----------------------------------------------------------------------------------------------

  /** The candidate of a counter value: the extracted key itself, then its first four characters with a number. */
  function Candidate(base: string, counter: nat): string {
    if counter <= 1 then base else Take(base, 4) + Decimal(counter)
  }

  lemma CandidatesDiffer(base: string, m: nat, n: nat)
    requires 2 <= m < n
    ensures Candidate(base, m) != Candidate(base, n)
  {
    var b := Take(base, 4);
    if b + Decimal(m) == b + Decimal(n) {
      assert Decimal(m) == (b + Decimal(m))[|b|..] && Decimal(n) == (b + Decimal(n))[|b|..];
      DecimalInjective(m, n);
    }
  }

  function NumberedCandidates(base: string, counter: nat): set<string> {
    set i | 2 <= i < counter :: Candidate(base, i)
  }

  lemma {:induction false} CandidatesAreMany(base: string, counter: nat)
    requires counter >= 2
    ensures |NumberedCandidates(base, counter)| == counter - 2
  {
    if counter == 2 {
      assert NumberedCandidates(base, 2) == {};
    } else {
      var last, before := Candidate(base, counter - 1), NumberedCandidates(base, counter - 1);
      CandidatesAreMany(base, counter - 1);
      forall i | 2 <= i < counter - 1 ensures Candidate(base, i) != last {
        CandidatesDiffer(base, i, counter - 1);
      }
      assert NumberedCandidates(base, counter) == before + {last};
    }
  }

  lemma SubsetIsNotLarger(a: set<string>, b: set<string>)
    requires a <= b
    ensures |a| <= |b|
  {
    assert b == a + (b - a);
  }

  ghost predicate AllTaken(base: string, counter: nat, keys: set<string>) {
    forall i :: 1 <= i < counter ==> Candidate(base, i) in keys
  }

  /**
   Pigeonhole: as long as all candidates before the counter are taken, there are at least as many keys, but for two.
   */
  lemma TakenBound(base: string, counter: nat, keys: set<string>)
    requires AllTaken(base, counter, keys)
    ensures counter <= |keys| + 2
  {
    if counter >= 2 {
      CandidatesAreMany(base, counter);
      SubsetIsNotLarger(NumberedCandidates(base, counter), keys);
    }
  }

  /** The first counter value, from the given one on, whose candidate is free. */
  function FirstFree(base: string, counter: nat, keys: set<string>): (n: nat)
    requires counter >= 1 && AllTaken(base, counter, keys)
    ensures counter <= n <= |keys| + 2 && Candidate(base, n) !in keys && AllTaken(base, n, keys)
    decreases |keys| + 2 - counter
  {
    TakenBound(base, counter, keys);
    if Candidate(base, counter) in keys then
      TakenBound(base, counter + 1, keys);
      FirstFree(base, counter + 1, keys)
    else counter
  }

  /** A key, or the conflict with an existing one. */
  datatype KeyResult = Key(key: string) | KeyAlreadyExists

  /**
   The key of a new project among the organization's keys: the custom key unless taken, else the first free candidate.
   */
  function UniqueKey(keys: set<string>, name: string, customKey: Option<string>): (r: KeyResult)
    ensures r.Key? ==> r.key !in keys
  {
    if customKey.Some? && customKey.value != "" then
      if customKey.value in keys then KeyAlreadyExists else Key(customKey.value)
    else
      var base := ExtractKeyFromName(name);
      Key(Candidate(base, FirstFree(base, 1, keys)))
  }

  /** Candidate n of a base: the base itself, or its first four characters followed by the number. */
  ghost predicate IsCandidate(base: string, n: nat, key: string) {
    if n <= 1 then key == base
    else if |base| <= 4 then key == base + Decimal(n)
    else key == base[..4] + Decimal(n)
  }

  /** A custom key is taken as it is or refused; else the first candidate that no project has is taken. */
  lemma UniqueKeyIs(keys: set<string>, name: string, customKey: Option<string>)
    ensures customKey.Some? && customKey.value != "" ==>
              UniqueKey(keys, name, customKey) == if customKey.value in keys then KeyAlreadyExists
                  else Key(customKey.value)
    ensures customKey.None? || customKey.value == "" ==>
              exists n: nat, key ::
                && n >= 1 && UniqueKey(keys, name, customKey) == Key(key)
                && IsCandidate(ExtractKeyFromName(name), n, key) && key !in keys
                && forall m, other :: 1 <= m < n && IsCandidate(ExtractKeyFromName(name), m, other) ==> other in keys
  {
    if customKey.None? || customKey.value == "" {
      var base := ExtractKeyFromName(name);
      var n := FirstFree(base, 1, keys);
      forall m, other | 1 <= m < n && IsCandidate(base, m, other) ensures other in keys {
        assert other == Candidate(base, m);
      }
      assert IsCandidate(base, n, Candidate(base, n));
    }
  }

  /** Without a custom key the loop makes at most |keys| + 1 rounds. */
  method GenerateUniqueKey(keys: set<string>, name: string, customKey: Option<string>)
    returns (r: KeyResult, rounds: nat)
    ensures r == UniqueKey(keys, name, customKey)
    ensures rounds <= |keys| + 1
  {
    rounds := 0;
    if customKey.Some? && customKey.value != "" {
      if customKey.value in keys {
        return KeyAlreadyExists, rounds;
      }
      return Key(customKey.value), rounds;
    }
    var baseKey := ExtractKeyFromName(name);
    var candidateKey := baseKey;
    var counter := 1;
    while candidateKey in keys
      invariant counter == rounds + 1 && candidateKey == Candidate(baseKey, counter)
      invariant AllTaken(baseKey, counter, keys)
      invariant FirstFree(baseKey, counter, keys) == FirstFree(baseKey, 1, keys)
      decreases FirstFree(baseKey, 1, keys) - counter
    {
      counter := counter + 1;
      candidateKey := Take(baseKey, 4) + Decimal(counter);
      rounds := rounds + 1;
    }
    return Key(candidateKey), rounds;
  }
}

/** splitList of the example's slimconfig: comma-separated options. */
module Lists {
  import opened Outcomes

  /** unicode.IsSpace. */
  predicate IsSpace(c: char) {
    || '\t' <= c <= '\r' || c == ' '
    || c == '\U{85}' || c == '\U{A0}' || c == '\U{1680}' || '\U{2000}' <= c <= '\U{200A}'
    || c == '\U{2028}' || c == '\U{2029}' || c == '\U{202F}' || c == '\U{205F}' || c == '\U{3000}'
  }

  /** The characters with Unicode's White_Space property, one by one: six of ASCII and nineteen others. */
  const SPACES := "\t\n\U{B}\U{C}\r \U{85}\U{A0}\U{1680}\U{2000}\U{2001}\U{2002}\U{2003}\U{2004}\U{2005}" +
    "\U{2006}\U{2007}\U{2008}\U{2009}\U{200A}\U{2028}\U{2029}\U{202F}\U{205F}\U{3000}"

  lemma SpaceCharacters(c: char)
    ensures IsSpace(c) <==> c in SPACES
  {
    if IsSpace(c) {
      var n := c as int;
      var i := if n < 14 then n - 9 else if n == 32 then 5 else if n == 0x85 then 6 else if n == 0xA0 then 7
               else if n == 0x1680 then 8 else if n < 0x200B then n - 0x2000 + 9 else if n < 0x202A then n - 0x2028 + 20
               else if n == 0x202F then 22 else if n == 0x205F then 23 else 24;
      assert SPACES[i] == c;
    }
  }

  predicate Trimmed(s: string) {
    s == "" || (!IsSpace(s[0]) && !IsSpace(s[|s| - 1]))
  }

  /** strings.TrimSpace. */
  function TrimSpace(s: string): (r: string)
    ensures Trimmed(r)
    ensures Trimmed(s) ==> r == s
    decreases |s|
  {
    if s == "" then ""
    else if IsSpace(s[0]) then TrimSpace(s[1..])
    else if IsSpace(s[|s| - 1]) then TrimSpace(s[..|s| - 1])
    else s
  }

  /** What is trimmed away is space, and what is left is a contiguous part of the string. */
  lemma {:induction false} TrimSpaceRemovesSpace(s: string) returns (i: nat, j: nat)
    ensures i <= j <= |s| && TrimSpace(s) == s[i..j]
    ensures forall k :: 0 <= k < i || j <= k < |s| ==> IsSpace(s[k])
    decreases |s|
  {
    if s != "" && IsSpace(s[0]) {
      i, j := TrimSpaceRemovesSpace(s[1..]);
      assert s[1..][i..j] == s[i + 1..j + 1];
      forall k | 0 <= k < i + 1 || j + 1 <= k < |s| ensures IsSpace(s[k]) {
        if k > 0 { assert s[k] == s[1..][k - 1]; }
      }
      i, j := i + 1, j + 1;
    } else if s != "" && IsSpace(s[|s| - 1]) {
      i, j := TrimSpaceRemovesSpace(s[..|s| - 1]);
      assert s[..|s| - 1][i..j] == s[i..j];
      forall k | 0 <= k < i || j <= k < |s| ensures IsSpace(s[k]) {
        if k < |s| - 1 { assert s[k] == s[..|s| - 1][k]; }
      }
    } else {
      i, j := 0, |s|;
    }
  }

  /** Put a character before the first part; a comma starts a new one. */
  function Attach(c: char, parts: seq<string>): (r: seq<string>)
    requires parts != []
    ensures r != []
  {
    if c == ',' then [""] + parts else [[c] + parts[0]] + parts[1..]
  }

  /** strings.Split(s, ","). */
  function Split(s: string): (parts: seq<string>)
    ensures parts != []
  {
    if s == "" then [""] else Attach(s[0], Split(s[1..]))
  }

  /** strings.Join(parts, ","). */
  function Join(parts: seq<string>): string {
    if parts == [] then ""
    else if |parts| == 1 then parts[0]
    else parts[0] + "," + Join(parts[1..])
  }

  predicate CommaFree(s: string) {
    ',' !in s
  }

  /** Split writes a string as comma-free parts joined by commas; by SplitUnique there is no other way. */
  lemma {:induction false} SplitExact(s: string)
    ensures Join(Split(s)) == s
    ensures forall p :: p in Split(s) ==> CommaFree(p)
  {
    if s != "" {
      SplitExact(s[1..]);
      var rest := Split(s[1..]);
      assert s == [s[0]] + s[1..];
      if s[0] == ',' {
        assert ([""] + rest)[1..] == rest;
        assert Join([""] + rest) == "" + "," + Join(rest);
      } else {
        assert rest[0] in rest;
        var head := [s[0]] + rest[0];
        assert ([head] + rest[1..])[1..] == rest[1..];
        if |rest| > 1 {
          assert head + "," + Join(rest[1..]) == [s[0]] + (rest[0] + "," + Join(rest[1..]));
        }
      }
    }
  }

  lemma {:induction false} SplitCommaFree(s: string)
    requires CommaFree(s)
    ensures Split(s) == [s]
  {
    if s != "" {
      SplitCommaFree(s[1..]);
      assert s == [s[0]] + s[1..];
    }
  }

  lemma AttachAppend(c: char, parts: seq<string>, more: seq<string>)
    requires parts != []
    ensures Attach(c, parts + more) == Attach(c, parts) + more
  {
    assert (parts + more)[1..] == parts[1..] + more;
  }

  lemma {:induction false} SplitAtComma(a: string, b: string)
    ensures Split(a + "," + b) == Split(a) + Split(b)
  {
    var whole := a + "," + b;
    if a == "" {
      assert whole[1..] == b;
    } else {
      SplitAtComma(a[1..], b);
      assert whole[0] == a[0] && whole[1..] == a[1..] + "," + b;
      AttachAppend(a[0], Split(a[1..]), Split(b));
    }
  }

  lemma {:induction false} SplitUnique(parts: seq<string>)
    requires parts != [] && forall p :: p in parts ==> CommaFree(p)
    ensures Split(Join(parts)) == parts
  {
    SplitCommaFree(parts[0]);
    if |parts| > 1 {
      SplitUnique(parts[1..]);
      SplitAtComma(parts[0], Join(parts[1..]));
    }
  }

  function FlatMap<T, U>(f: T -> seq<U>, s: seq<T>): seq<U> {
    if s == [] then [] else f(s[0]) + FlatMap(f, s[1..])
  }

  lemma {:induction false} FlatMapAppend<T, U>(f: T -> seq<U>, a: seq<T>, b: seq<T>)
    ensures FlatMap(f, a + b) == FlatMap(f, a) + FlatMap(f, b)
  {
    if a == [] {
      assert a + b == b;
    } else {
      FlatMapAppend(f, a[1..], b);
      assert (a + b)[1..] == a[1..] + b;
    }
  }

  function KeepOne(p: string): seq<string> {
    if TrimSpace(p) != "" then [TrimSpace(p)] else []
  }

  /** The parts that are kept: trimmed, and not empty. */
  function Kept(parts: seq<string>): seq<string> {
    FlatMap(KeepOne, parts)
  }

  /** The entries of an option; none of them is Go's nil. */
  function Entries(s: string): seq<string> {
    Kept(Split(s))
  }

  lemma KeptSnoc(parts: seq<string>, i: nat)
    requires i < |parts|
    ensures Kept(parts[..i + 1]) == Kept(parts[..i]) + KeepOne(parts[i])
  {
    assert parts[..i + 1] == parts[..i] + [parts[i]];
    FlatMapAppend(KeepOne, parts[..i], [parts[i]]);
    assert [parts[i]][1..] == [];
  }

  /** splitList. */
  method SplitList(s: string) returns (list: Option<seq<string>>)
    ensures list == if Entries(s) == [] then None else Some(Entries(s))
  {
    var parts := Split(s);
    var out := [];
    for i := 0 to |parts|
      invariant out == Kept(parts[..i])
    {
      KeptSnoc(parts, i);
      var p := TrimSpace(parts[i]);
      if p != "" {
        out := out + [p];
      }
    }
    assert parts[..|parts|] == parts;
    if |out| == 0 {
      return None;
    }
    return Some(out);
  }

  /** Two lists joined by a comma parse to one list after the other. */
  lemma EntriesOfJoined(a: string, b: string)
    ensures Entries(a + "," + b) == Entries(a) + Entries(b)
  {
    SplitAtComma(a, b);
    FlatMapAppend(KeepOne, Split(a), Split(b));
  }

  /** One part gives one entry, itself without the space around it, unless nothing else is in it. With EntriesOfJoined
      and SplitExact this determines the entries of every string. */
  lemma EntriesOfPart(p: string)
    requires CommaFree(p)
    ensures Entries(p) == if TrimSpace(p) == "" then [] else [TrimSpace(p)]
  {
    SplitCommaFree(p);
    var one := [p];
    assert one[1..] == [];
    assert FlatMap(KeepOne, one) == KeepOne(p) + [];
  }

  /** Space around a part is never part of an entry and never costs one: with clean words between any blanks, commas
      and blanks give the words back. */
  lemma {:induction false} SpacedWords(words: seq<string>, before: seq<string>, after: seq<string>)
    requires |before| == |after| == |words|
    requires forall i :: 0 <= i < |words| ==> Clean(words[i]) && Blank(before[i]) && Blank(after[i])
    ensures Entries(Join(Spaced(words, before, after))) == words
  {
    var parts := Spaced(words, before, after);
    if words == [] {
      EntriesOfPart("");
    } else {
      SpacedIsCommaFree(before[0], words[0], after[0]);
      TrimSpaced(before[0], words[0], after[0]);
      EntriesOfPart(parts[0]);
      if |words| > 1 {
        assert parts[1..] == Spaced(words[1..], before[1..], after[1..]);
        SpacedWords(words[1..], before[1..], after[1..]);
        EntriesOfJoined(parts[0], Join(parts[1..]));
      }
    }
  }

  /** Nothing but space. */
  predicate Blank(s: string) {
    forall i :: 0 <= i < |s| ==> IsSpace(s[i])
  }

  function Spaced(words: seq<string>, before: seq<string>, after: seq<string>): seq<string>
    requires |before| == |after| == |words|
  {
    seq(|words|, i requires 0 <= i < |words| => before[i] + words[i] + after[i])
  }

  lemma SpacedIsCommaFree(before: string, word: string, after: string)
    requires Blank(before) && CommaFree(word) && Blank(after)
    ensures CommaFree(before + word + after)
  {
  }

  lemma {:induction false} TrimSpaced(before: string, word: string, after: string)
    requires Blank(before) && word != "" && Trimmed(word) && Blank(after)
    ensures TrimSpace(before + word + after) == word
    decreases |before| + |after|
  {
    var s := before + word + after;
    if before != "" {
      assert s[1..] == before[1..] + word + after;
      TrimSpaced(before[1..], word, after);
    } else if after != "" {
      assert s[..|s| - 1] == before + word + after[..|after| - 1];
      TrimSpaced(before, word, after[..|after| - 1]);
    } else {
      assert s == word;
    }
  }

  predicate Clean(s: string) {
    s != "" && Trimmed(s) && CommaFree(s)
  }

  lemma {:induction false} KeptAreClean(parts: seq<string>)
    requires forall p :: p in parts ==> CommaFree(p)
    ensures forall p :: p in Kept(parts) ==> Clean(p)
  {
    if parts != [] {
      KeptAreClean(parts[1..]);
      assert parts[0] in parts;
      var i, j := TrimSpaceRemovesSpace(parts[0]);
    }
  }

  lemma {:induction false} CleanListsSurvive(list: seq<string>)
    requires forall p :: p in list ==> Clean(p)
    ensures Entries(Join(list)) == list
  {
    if list == [] {
      EntriesOfPart("");
    } else {
      assert list[0] in list;
      EntriesOfPart(list[0]);
      if |list| > 1 {
        CleanListsSurvive(list[1..]);
        EntriesOfJoined(list[0], Join(list[1..]));
      }
    }
  }

  /** Printing a list with commas and parsing it gives it back exactly when its elements are non-empty,
      trimmed and free of commas; and every parsed list is such a list. */
  lemma PrintParse(list: seq<string>)
    ensures Entries(Join(list)) == list <==> forall p :: p in list ==> Clean(p)
  {
    if forall p :: p in list ==> Clean(p) {
      CleanListsSurvive(list);
    }
    SplitExact(Join(list));
    KeptAreClean(Split(Join(list)));
  }

  lemma ParsePrintParse(s: string)
    ensures forall p :: p in Entries(s) ==> Clean(p)
    ensures Entries(Join(Entries(s))) == Entries(s)
  {
    SplitExact(s);
    KeptAreClean(Split(s));
    CleanListsSurvive(Entries(s));
  }
}

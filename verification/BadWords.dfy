/**
 The bad-word filter: before each token is sampled, minus infinity is added to the logit of every token that
 would complete a forbidden word. Logits are extended reals, so that adding infinities is what floats do.
 */
module BadWords {
  import opened Lists

  datatype Logit = NegInf | Finite(value: real) | PosInf | NaN

  function Plus(a: Logit, b: Logit): Logit {
    match (a, b)
    case (NaN, _) => NaN
    case (_, NaN) => NaN
    case (Finite(x), Finite(y)) => Finite(x + y)
    case (Finite(_), _) => b
    case (_, Finite(_)) => a
    case (NegInf, NegInf) => NegInf
    case (PosInf, PosInf) => PosInf
    case (NegInf, PosInf) => NaN
    case (PosInf, NegInf) => NaN
  }

  const ZERO := Finite(0.0)

  predicate AboveNegInf(x: Logit) { x.Finite? || x.PosInf? }

  datatype Failure = ValueError(invalid: seq<int>) | IndexError

  datatype Outcome = Processed(logits: seq<Logit>) | Failed(why: Failure)

  // ------------------------------------------------------------------ what is forbidden

  predicate EndsWith(past: seq<int>, tail: seq<int>) { |tail| <= |past| && past[|past| - |tail|..] == tail }

  /** `word` would be complete if `v` followed `past`. */
  predicate Completes(word: seq<int>, past: seq<int>, v: int) {
    word != [] && word[|word| - 1] == v && EndsWith(past, word[..|word| - 1])
  }

  ghost predicate Banned(words: seq<seq<int>>, past: seq<int>, v: int) {
    exists w :: w in words && Completes(w, past, v)
  }

  predicate InRange(word: seq<int>, vocab: nat) { forall i :: 0 <= i < |word| ==> 0 <= word[i] < vocab }

  /** The ids outside the vocabulary, in order. */
  function InvalidIn(word: seq<int>, vocab: nat): seq<int> {
    if word == [] then []
    else InvalidIn(word[..|word| - 1], vocab) + if 0 <= word[|word| - 1] < vocab then [] else [word[|word| - 1]]
  }

  function Invalid(words: seq<seq<int>>, vocab: nat): seq<int> {
    if words == [] then [] else Invalid(words[..|words| - 1], vocab) + InvalidIn(words[|words| - 1], vocab)
  }

  lemma {:induction false} InvalidInMeaning(word: seq<int>, vocab: nat)
    ensures InvalidIn(word, vocab) == [] <==> InRange(word, vocab)
  {
    if word != [] {
      var n := |word| - 1;
      InvalidInMeaning(word[..n], vocab);
      assert InRange(word, vocab) <==> InRange(word[..n], vocab) && 0 <= word[n] < vocab by {
        assert forall i :: 0 <= i < n ==> word[..n][i] == word[i];
      }
    }
  }

  lemma {:induction false} InvalidMeaning(words: seq<seq<int>>, vocab: nat)
    ensures Invalid(words, vocab) == [] <==> forall w :: w in words ==> InRange(w, vocab)
  {
    hide InRange;
    if words != [] {
      var n := |words| - 1;
      InvalidMeaning(words[..n], vocab);
      InvalidInMeaning(words[n], vocab);
      assert words == words[..n] + [words[n]];
    }
  }

  predicate Outside(x: int, vocab: nat) { x < 0 || vocab <= x }

  lemma {:induction false} InvalidInExact(word: seq<int>, vocab: nat, x: int)
    ensures multiset(InvalidIn(word, vocab))[x] == if Outside(x, vocab) then multiset(word)[x] else 0
  {
    if word != [] {
      InvalidInExact(word[..|word| - 1], vocab, x);
      assert word == word[..|word| - 1] + [word[|word| - 1]];
    }
  }

  /** How often an id occurs in all the words together. */
  ghost function Occurrences(words: seq<seq<int>>, x: int): nat {
    if words == [] then 0 else Occurrences(words[..|words| - 1], x) + multiset(words[|words| - 1])[x]
  }

  /** The refusal lists every id outside the vocabulary, as often as the words have it, and no other. */
  lemma {:induction false} InvalidExact(words: seq<seq<int>>, vocab: nat, x: int)
    ensures multiset(Invalid(words, vocab))[x] == if Outside(x, vocab) then Occurrences(words, x) else 0
  {
    if words != [] {
      InvalidExact(words[..|words| - 1], vocab, x);
      InvalidInExact(words[|words| - 1], vocab, x);
    }
  }

  // ------------------------------------------------------------------ the biases

  /** Minus infinity on the tokens of `words` that are one token long. */
  ghost predicate IsWordBias(words: seq<seq<int>>, n: nat, bias: seq<Logit>) {
    n <= |words| && forall v :: 0 <= v < |bias| ==> bias[v] == if Single(words[..n], v) then NegInf else ZERO
  }

  ghost predicate Single(words: seq<seq<int>>, v: int) { [v] in words }

  /** Minus infinity on the tokens that complete one of the longer words. */
  ghost predicate IsLastBias(words: seq<seq<int>>, n: nat, past: seq<int>, bias: seq<Logit>) {
    n <= |words| && forall v :: 0 <= v < |bias| ==> bias[v] == if LongBanned(words[..n], past, v) then NegInf else ZERO
  }

  ghost predicate LongBanned(words: seq<seq<int>>, past: seq<int>, v: int) {
    exists w :: w in words && |w| > 1 && Completes(w, past, v)
  }

  lemma BannedSplit(words: seq<seq<int>>, past: seq<int>, v: int)
    ensures Banned(words, past, v) <==> Single(words, v) || LongBanned(words, past, v)
  {
    if Banned(words, past, v) && !LongBanned(words, past, v) {
      var w :| w in words && Completes(w, past, v);
      assert |w| == 1 && w == [v];
    }
    if Single(words, v) {
      assert Completes([v], past, v) by { assert [v][..0] == []; }
    }
  }

  lemma SingleNext(words: seq<seq<int>>, n: nat, v: int)
    requires n < |words|
    ensures Single(words[..n + 1], v) <==> Single(words[..n], v) || words[n] == [v]
  {
    assert words[..n + 1] == words[..n] + [words[n]];
  }

  lemma LongNext(words: seq<seq<int>>, n: nat, past: seq<int>, v: int)
    requires n < |words|
    ensures LongBanned(words[..n + 1], past, v) <==>
            LongBanned(words[..n], past, v) || (|words[n]| > 1 && Completes(words[n], past, v))
  {
    hide Completes;
    assert words[..n + 1] == words[..n] + [words[n]];
  }

  /** What the processed logit must be: a finite logit becomes minus infinity exactly when its token is banned. */
  ghost function Masked(logit: Logit, banned: bool): Logit {
    if !banned then logit else if logit.Finite? || logit.NegInf? then NegInf else NaN
  }

  // ------------------------------------------------------------------ the processor

  class Processor {
    const words: seq<seq<int>>
    var wordBias: Option<seq<Logit>>

    /** Once made, the word bias is right and every id it was made for is in the vocabulary. */
    ghost predicate Valid()
      reads this
    {
      wordBias.Some? ==> IsWordBias(words, |words|, wordBias.value) && forall w :: w in words ==>
          InRange(w, |wordBias.value|)
    }

    constructor (badWords: seq<seq<int>>)
      ensures Valid() && words == badWords && wordBias.None?
    {
      words, wordBias := badWords, None;
    }

    /** Every out-of-range id of every word, refused together. */
    method CheckBounds(vocab: nat) returns (invalid: seq<int>)
      ensures invalid == Invalid(words, vocab)
    {
      invalid := [];
      for i := 0 to |words|
        invariant invalid == Invalid(words[..i], vocab)
      {
        var word := words[i];
        var before := invalid;
        for j := 0 to |word|
          invariant invalid == before + InvalidIn(word[..j], vocab)
        {
          assert word[..j + 1][..j] == word[..j];
          if word[j] < 0 || word[j] >= vocab {
            invalid := invalid + [word[j]];
          }
        }
        assert word[..|word|] == word && words[..i + 1][..i] == words[..i];
      }
      assert words[..|words|] == words;
    }

    method InitWordBias(vocab: nat) returns (invalid: seq<int>)
      requires Valid() && wordBias.None?
      modifies this
      ensures Valid() && invalid == Invalid(words, vocab)
      ensures wordBias.Some? <==> invalid == []
      ensures wordBias.Some? ==> |wordBias.value| == vocab
    {
      hide Invalid, Single;
      invalid := CheckBounds(vocab);
      InvalidMeaning(words, vocab);
      if invalid != [] {
        return;
      }
      var bias := seq(vocab, _ => ZERO);
      forall v ensures !Single(words[..0], v) { NoSingle(words, v); }
      for i := 0 to |words|
        invariant |bias| == vocab && IsWordBias(words, i, bias)
      {
        forall v ensures Single(words[..i + 1], v) <==> Single(words[..i], v) || words[i] == [v] {
          SingleNext(words, i, v);
        }
        if |words[i]| == 1 {
          assert InRange(words[i], vocab) && words[i] == [words[i][0]];
          bias := bias[words[i][0] := NegInf];
        }
      }
      wordBias := Some(bias);
    }

    /** One step of the filter: the failures of the original, and otherwise the exact mask. */
    method Call(past: seq<int>, logits: seq<Logit>) returns (r: Outcome)
      requires Valid() && (wordBias.Some? ==> |wordBias.value| == |logits|)
      modifies this
      ensures Valid() && (wordBias.Some? ==> |wordBias.value| == |logits|)
      ensures r.Failed? <==> (old(wordBias).None? && Invalid(words, |logits|) != []) || [] in words
      ensures old(wordBias).None? && Invalid(words, |logits|) != [] ==>
              r == Failed(ValueError(Invalid(words, |logits|)))
      ensures r.Processed? ==> |r.logits| == |logits|
      ensures r.Processed? ==> forall v :: 0 <= v < |logits| ==>
              r.logits[v] == Masked(logits[v], Banned(words, past, v))
      ensures r.Processed? ==> forall v :: 0 <= v < |logits| && !Banned(words, past, v) ==> r.logits[v] == logits[v]
      ensures r.Processed? ==> forall v :: 0 <= v < |logits| && Banned(words, past, v) ==> !AboveNegInf(r.logits[v])
    {
      hide Banned, IsWordBias, IsLastBias, Invalid;
      if wordBias.None? {
        var invalid := InitWordBias(|logits|);
        if invalid != [] {
          return Failed(ValueError(invalid));
        }
      }
      var ok, last := LastTokenBias(past, |logits|);
      if !ok {
        return Failed(IndexError);
      }
      var out := AddBiases(past, logits, wordBias.value, last);
      r := Processed(out);
    }

    method AddBiases(past: seq<int>, logits: seq<Logit>, word: seq<Logit>, last: seq<Logit>) returns (out: seq<Logit>)
      requires |word| == |logits| == |last| && IsWordBias(words, |words|, word) &&
               IsLastBias(words, |words|, past, last)
      ensures |out| == |logits| && forall v :: 0 <= v < |logits| ==> out[v] == Masked(logits[v], Banned(words, past, v))
    {
      hide Banned, IsWordBias, IsLastBias, Masked;
      out := logits;
      for v := 0 to |logits|
        invariant |out| == |logits|
        invariant forall u :: 0 <= u < v ==> out[u] == Masked(logits[u], Banned(words, past, u))
      {
        MaskOne(words, past, logits[v], word, last, v);
        out := out[v := Plus(Plus(logits[v], word[v]), last[v])];
      }
    }

    /** The bias of this step; an empty word has no last token. */
    method LastTokenBias(past: seq<int>, vocab: nat) returns (ok: bool, bias: seq<Logit>)
      requires forall w :: w in words ==> InRange(w, vocab)
      ensures ok <==> [] !in words
      ensures ok ==> |bias| == vocab && IsLastBias(words, |words|, past, bias)
    {
      hide LongBanned, Completes, InRange;
      bias := seq(vocab, _ => ZERO);
      ok := true;
      forall v ensures !LongBanned(words[..0], past, v) { NoLong(words, past, v); }
      for i := 0 to |words|
        invariant |bias| == vocab && IsLastBias(words, i, past, bias) && [] !in words[..i]
      {
        var word := words[i];
        assert words[..i + 1] == words[..i] + [word];
        forall v
          ensures LongBanned(words[..i + 1], past, v) <==>
                  LongBanned(words[..i], past, v) || (|word| > 1 && Completes(word, past, v))
        {
          LongNext(words, i, past, v);
        }
        if |word| == 1 {
          continue;
        }
        if |word| > |past| + 1 {
          forall v ensures !Completes(word, past, v) { TooLong(word, past, v); }
          continue;
        }
        if word == [] {
          ok := false;
          return;
        }
        var p := |word| - 1;
        var lastToken := word[p];
        var actual, expected := past[|past| - p..], word[..p];
        LastInRange(word, vocab);
        forall v ensures Completes(word, past, v) <==> v == lastToken && actual == expected {
          CompletesIff(word, past, v);
        }
        bias := bias[lastToken := Plus(bias[lastToken], if actual == expected then NegInf else ZERO)];
      }
      assert words[..|words|] == words;
    }
  }

  lemma NoSingle(words: seq<seq<int>>, v: int)
    ensures !Single(words[..0], v)
  {
  }

  lemma NoLong(words: seq<seq<int>>, past: seq<int>, v: int)
    ensures !LongBanned(words[..0], past, v)
  {
  }

  lemma TooLong(word: seq<int>, past: seq<int>, v: int)
    requires |word| > |past| + 1
    ensures !Completes(word, past, v)
  {
  }

  lemma LastInRange(word: seq<int>, vocab: nat)
    requires InRange(word, vocab) && word != []
    ensures 0 <= word[|word| - 1] < vocab
  {
  }

  lemma CompletesIff(word: seq<int>, past: seq<int>, v: int)
    requires 1 < |word| <= |past| + 1
    ensures var p := |word| - 1; Completes(word, past, v) <==> v == word[p] && past[|past| - p..] == word[..p]
  {
  }

  lemma MaskOne(words: seq<seq<int>>, past: seq<int>, logit: Logit, word: seq<Logit>, last: seq<Logit>, v: nat)
    requires v < |word| && v < |last| && IsWordBias(words, |words|, word) && IsLastBias(words, |words|, past, last)
    ensures Plus(Plus(logit, word[v]), last[v]) == Masked(logit, Banned(words, past, v))
  {
    hide Banned, Single, LongBanned;
    assert words[..|words|] == words;
    BannedSplit(words, past, v);
  }

  // ------------------------------------------------------------------ whole runs

  /** A generation: from `past`, each emitted token had a processed logit above minus infinity. */
  ghost predicate Generated(words: seq<seq<int>>, past: seq<int>, steps: seq<(seq<Logit>, int)>)
    decreases |steps|
  {
    steps == [] ||
    (var (logits, v) := steps[0];
     && 0 <= v < |logits| && AboveNegInf(Masked(logits[v], Banned(words, past, v)))
     && Generated(words, past + [v], steps[1..]))
  }

  ghost function Emitted(past: seq<int>, steps: seq<(seq<Logit>, int)>): seq<int>
    decreases |steps|
  {
    if steps == [] then past else Emitted(past + [steps[0].1], steps[1..])
  }

  /** `word` occurs in `s` ending at position `end`. */
  predicate OccursAt(word: seq<int>, s: seq<int>, end: nat) {
    |word| <= end <= |s| && s[end - |word|..end] == word
  }

  lemma OccursCompletes(word: seq<int>, s: seq<int>, end: nat)
    requires word != [] && OccursAt(word, s, end)
    ensures end > 0 && Completes(word, s[..end - 1], s[end - 1])
  {
    var past := s[..end - 1];
    assert word[..|word| - 1] == past[|past| - (|word| - 1)..];
  }

  lemma {:induction false} EmittedExtends(past: seq<int>, steps: seq<(seq<Logit>, int)>)
    ensures |Emitted(past, steps)| == |past| + |steps| && Emitted(past, steps)[..|past|] == past
    decreases |steps|
  {
    if steps != [] {
      EmittedExtends(past + [steps[0].1], steps[1..]);
      assert Emitted(past, steps)[..|past|] == Emitted(past, steps)[..|past| + 1][..|past|];
    }
  }

  /** No bad word ever ends in the generated part; started from nothing, none occurs at all. */
  lemma {:induction false} NeverEmitted(words: seq<seq<int>>, past: seq<int>, steps: seq<(seq<Logit>, int)>,
                                        word: seq<int>, end: nat)
    requires Generated(words, past, steps) && word in words && word != [] && |past| < end
    ensures !OccursAt(word, Emitted(past, steps), end)
    decreases |steps|
  {
    hide Completes, OccursAt;
    EmittedExtends(past, steps);
    if steps == [] {
      TooFar(word, past, end);
    } else {
      var v := steps[0].1;
      var s := Emitted(past, steps);
      EmittedExtends(past + [v], steps[1..]);
      if end > |past| + 1 {
        NeverEmitted(words, past + [v], steps[1..], word, end);
      } else {
        assert s[..|past| + 1] == past + [v];
        assert s[end - 1] == v && s[..end - 1] == past;
        assert !Banned(words, past, v) && !Completes(word, past, v);
        if OccursAt(word, s, end) { OccursCompletes(word, s, end); }
      }
    }
  }

  lemma TooFar(word: seq<int>, s: seq<int>, end: nat)
    requires |s| < end
    ensures !OccursAt(word, s, end)
  {
  }

  /** Nothing more is banned than must be: a token is exactly when some bad word would end with it. */
  lemma BannedIffOccurs(words: seq<seq<int>>, past: seq<int>, v: int)
    ensures Banned(words, past, v) <==> exists w :: w in words && w != [] && OccursAt(w, past + [v], |past| + 1)
  {
    var s, end := past + [v], |past| + 1;
    assert s[..end - 1] == past && s[end - 1] == v;
    forall w | w in words && w != [] ensures Completes(w, past, v) <==> OccursAt(w, s, end) {
      if OccursAt(w, s, end) { OccursCompletes(w, s, end); }
      if Completes(w, past, v) { CompletedOccurs(w, past, v); }
    }
  }

  lemma CompletedOccurs(word: seq<int>, past: seq<int>, v: int)
    requires Completes(word, past, v)
    ensures OccursAt(word, past + [v], |past| + 1)
  {
    var n := |word| - 1;
    assert (past + [v])[|past| - n..|past| + 1] == past[|past| - n..] + [v];
    assert word == word[..n] + [word[n]];
  }

  /** A run that starts with no tokens contains no bad word anywhere. */
  lemma RunSafe(words: seq<seq<int>>, steps: seq<(seq<Logit>, int)>, word: seq<int>, end: nat)
    requires Generated(words, [], steps) && word in words && word != []
    ensures !OccursAt(word, Emitted([], steps), end)
  {
    if end > 0 { NeverEmitted(words, [], steps, word, end); }
  }
}

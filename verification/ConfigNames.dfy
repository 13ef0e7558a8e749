/**
  globals/config_parser.go: printing a field name as an environment variable name, and reading one back. Names are
  ASCII; the prefix is written and trimmed by the caller.
 */
module ConfigNames {
  import opened Ascii

  // --- toEnvVarName ---

  /** The `s` of a plural such as IDs: followed by the end or by an upper-case letter. */
  predicate IsPluralS(name: string, i: nat) {
    i < |name| && name[i] == 's' && (i + 1 >= |name| || IsUpper(name[i + 1]))
  }

  /** An underscore goes before position `i`. */
  predicate IsCut(name: string, i: nat) {
    && 0 < i < |name| && IsUpper(name[i])
    && (IsLower(name[i - 1]) || (i + 1 < |name| && IsLower(name[i + 1]) && !IsPluralS(name, i + 1)))
  }

  /** The name from `i` on, printed. */
  function EnvFrom(name: string, i: nat): string
    requires i <= |name|
    decreases |name| - i
  {
    if i == |name| then ""
    else (if IsCut(name, i) then "_" else "") + [ToUpper(name[i])] + EnvFrom(name, i + 1)
  }

  method ToEnvVarName(prefix: string, name: string) returns (result: string)
    ensures result == prefix + EnvFrom(name, 0)
  {
    result := "";
    if prefix != "" {
      result := result + prefix;
    }
    for i := 0 to |name|
      invariant result + EnvFrom(name, i) == prefix + EnvFrom(name, 0)
    {
      var r := name[i];
      ghost var before := result;
      if r == 's' && i > 0 && IsUpper(name[i - 1]) {
        result := result + "S";
        assert before + EnvFrom(name, i) == result + EnvFrom(name, i + 1);
        continue;
      }
      if i > 0 && IsUpper(r) {
        var prevIsLower := IsLower(name[i - 1]);
        var nextIsLower := i + 1 < |name| && IsLower(name[i + 1]);
        var nextIsPluralS := i + 1 < |name| && name[i + 1] == 's' && (i + 2 >= |name| || IsUpper(name[i + 2]));
        if prevIsLower || (nextIsLower && !nextIsPluralS) {
          result := result + "_";
        }
      }
      result := result + [ToUpper(r)];
      assert before + EnvFrom(name, i) == result + EnvFrom(name, i + 1);
    }
  }

  // --- toPascalCase ---

  /** strings.Split on underscores. */
  function Split(s: string): (words: seq<string>)
    ensures 0 < |words|
  {
    if s == "" then [""]
    else
      var rest := Split(s[1..]);
      if s[0] == '_' then [""] + rest else [[s[0]] + rest[0]] + rest[1..]
  }

  /** The parser's tables of initialisms and of those that may take a plural s. */
  datatype Tables = Tables(initialisms: set<string>, plurals: set<string>)

  function TrimS(s: string): string {
    if s != "" && s[|s| - 1] == 'S' then s[..|s| - 1] else s
  }

  function CapitalizeWord(t: Tables, word: string): (r: string)
    ensures |r| == |word|
  {
    if word == "" then word
    else
      var upper := Upper(word);
      var withoutS := TrimS(upper);
      if upper in t.initialisms then upper
      else if withoutS in t.initialisms && upper[|upper| - 1] == 'S' && withoutS in t.plurals then withoutS + "s"
      else if withoutS in t.initialisms then upper
      else [ToUpper(word[0])] + word[1..]
  }

  function Joined(t: Tables, words: seq<string>): string {
    if words == [] then "" else CapitalizeWord(t, words[0]) + Joined(t, words[1..])
  }

  function PascalCase(t: Tables, s: string): string {
    Joined(t, Split(Lower(s)))
  }

  lemma JoinedFrom(t: Tables, words: seq<string>, i: nat)
    requires i < |words|
    ensures Joined(t, words[i..]) == CapitalizeWord(t, words[i]) + Joined(t, words[i + 1..])
    ensures Joined(t, words[|words|..]) == "" && words[0..] == words
  {
    assert words[i..][1..] == words[i + 1..];
  }

  method ToPascalCase(t: Tables, str: string) returns (result: string)
    ensures result == PascalCase(t, str)
  {
    hide Joined, CapitalizeWord, Split, Lower;
    var words := Split(Lower(str));
    result := "";
    JoinedFrom(t, words, 0);
    for i := 0 to |words|
      invariant result + Joined(t, words[i..]) == Joined(t, words)
    {
      JoinedFrom(t, words, i);
      result := result + CapitalizeWord(t, words[i]);
    }
  }

  // --- the round trip ---

  /** The pieces between the printed underscores, from `i` on. */
  function ChunksFrom(name: string, i: nat): (chunks: seq<string>)
    requires i < |name|
    ensures 0 < |chunks| && chunks[0] != ""
    decreases |name| - i
  {
    if i + 1 == |name| then [[name[i]]]
    else
      var rest := ChunksFrom(name, i + 1);
      if IsCut(name, i + 1) then [[name[i]]] + rest
      else [[name[i]] + rest[0]] + rest[1..]
  }

  function Chunks(name: string): seq<string> {
    if name == "" then [""] else ChunksFrom(name, 0)
  }

  function Concat(words: seq<string>): string {
    if words == [] then "" else words[0] + Concat(words[1..])
  }

  function Lowered(words: seq<string>): (r: seq<string>)
    ensures |r| == |words|
  {
    seq(|words|, i requires 0 <= i < |words| => Lower(words[i]))
  }

  lemma ConcatCons(w: string, rest: seq<string>)
    ensures Concat([w] + rest) == w + Concat(rest)
  {
    assert ([w] + rest)[1..] == rest;
  }

  /** A letter in front of the first word is a letter in front of them all. */
  lemma ConcatPush(c: char, words: seq<string>)
    requires words != []
    ensures Concat([[c] + words[0]] + words[1..]) == [c] + Concat(words)
  {
    ConcatCons([c] + words[0], words[1..]);
  }

  lemma {:induction false} ChunksConcat(name: string, i: nat)
    requires i < |name|
    ensures Concat(ChunksFrom(name, i)) == name[i..]
    decreases |name| - i
  {
    hide IsCut, Concat;
    if i + 1 == |name| {
      ConcatOne([name[i]]);
    } else {
      ChunksConcat(name, i + 1);
      var rest := ChunksFrom(name, i + 1);
      if IsCut(name, i + 1) {
        ConcatCons([name[i]], rest);
      } else {
        ConcatPush(name[i], rest);
      }
      assert [name[i]] + name[i + 1..] == name[i..];
    }
  }

  lemma ConcatOne(w: string)
    ensures Concat([w]) == w
  {
  }

  predicate NoUnderscore(s: string) {
    forall i :: 0 <= i < |s| ==> s[i] != '_'
  }

  lemma LowerCons(c: char, s: string)
    ensures Lower([c] + s) == [ToLower(c)] + Lower(s)
  {
  }

  /** `c` put in front of the first word. */
  function Push(c: char, words: seq<string>): seq<string>
    requires words != []
  {
    [[c] + words[0]] + words[1..]
  }

  lemma PushCons(c: char, w: string, words: seq<string>)
    ensures Push(c, [w] + words) == [[c] + w] + words
  {
  }

  lemma SplitCons(c: char, s: string)
    ensures Split([c] + s) == if c == '_' then [""] + Split(s) else Push(c, Split(s))
  {
    assert ([c] + s)[1..] == s;
  }

  lemma LoweredCons(w: string, words: seq<string>)
    ensures Lowered([w] + words) == [Lower(w)] + Lowered(words)
  {
  }

  lemma EnvStep(name: string, i: nat)
    requires i < |name|
    ensures
      var body := [ToUpper(name[i])] + EnvFrom(name, i + 1);
      EnvFrom(name, i) == if IsCut(name, i) then ['_'] + body else body
  {
  }

  lemma SplitLowered(c: char, s: string)
    ensures Split(Lower([c] + s)) == if ToLower(c) == '_' then [""] + Split(Lower(s)) else Push(ToLower(c), Split(Lower(s)))
  {
    LowerCons(c, s);
    SplitCons(ToLower(c), Lower(s));
  }

  /** The printed name, lowered and split, is the chunks again. */
  lemma {:induction false} SplitEnv(name: string, i: nat)
    requires NoUnderscore(name) && i < |name|
    ensures Split(Lower(EnvFrom(name, i))) == (if IsCut(name, i) then [""] else []) + Lowered(ChunksFrom(name, i))
    decreases |name| - i, 1
  {
    hide IsCut, Split, EnvFrom, Push, Lower, Lowered, ChunksFrom;
    var c := name[i];
    assert c != '_';
    var body := [ToUpper(c)] + EnvFrom(name, i + 1);
    EnvStep(name, i);
    SplitLowered(ToUpper(c), EnvFrom(name, i + 1));
    SplitRest(name, i);
    SplitLowered('_', body);
  }

  lemma {:induction false} SplitRest(name: string, i: nat)
    requires NoUnderscore(name) && i < |name|
    ensures Push(ToLower(name[i]), Split(Lower(EnvFrom(name, i + 1)))) == Lowered(ChunksFrom(name, i))
    decreases |name| - i, 0
  {
    hide IsCut, Split, EnvFrom, Push;
    var c := name[i];
    LowerCons(c, "");
    assert [c] + "" == [c] && [ToLower(c)] + Lower("") == [ToLower(c)];
    if i + 1 == |name| {
      SplitNothing(name);
      PushCons(ToLower(c), "", []);
      LoweredCons([c], []);
      assert [""] + [] == [""] && [[c]] + [] == [[c]];
      assert [ToLower(c)] + "" == [ToLower(c)];
    } else {
      SplitEnv(name, i + 1);
      var rest := ChunksFrom(name, i + 1);
      if IsCut(name, i + 1) {
        PushCons(ToLower(c), "", Lowered(rest));
        LoweredCons([c], rest);
        assert [ToLower(c)] + "" == [ToLower(c)];
      } else {
        assert rest == [rest[0]] + rest[1..];
        LoweredCons(rest[0], rest[1..]);
        assert [] + Lowered(rest) == Lowered(rest);
        PushCons(ToLower(c), Lower(rest[0]), Lowered(rest[1..]));
        LoweredCons([c] + rest[0], rest[1..]);
        LowerCons(c, rest[0]);
      }
    }
  }

  lemma SplitNothing(name: string)
    ensures Split(Lower(EnvFrom(name, |name|))) == [""]
  {
  }

  /** Reading back what was printed gives the name. */
  predicate RoundTrips(t: Tables, name: string) {
    PascalCase(t, EnvFrom(name, 0)) == name
  }

  /** Every printed piece is capitalised back to what it was. */
  predicate PiecesRoundTrip(t: Tables, words: seq<string>) {
    forall k :: 0 <= k < |words| ==> CapitalizeWord(t, Lower(words[k])) == words[k]
  }

  lemma {:induction false} JoinedIff(t: Tables, words: seq<string>)
    ensures |Joined(t, Lowered(words))| == |Concat(words)|
    ensures Joined(t, Lowered(words)) == Concat(words) <==> PiecesRoundTrip(t, words)
  {
    if words != [] {
      var w, rest := words[0], words[1..];
      JoinedIff(t, rest);
      assert words == [w] + rest;
      LoweredCons(w, rest);
      assert Lowered(words)[1..] == Lowered(rest);
      var back, others := CapitalizeWord(t, Lower(w)), Joined(t, Lowered(rest));
      if back + others == w + Concat(rest) {
        assert (back + others)[..|w|] == back && (w + Concat(rest))[..|w|] == w;
        assert (back + others)[|w|..] == others && (w + Concat(rest))[|w|..] == Concat(rest);
      }
      assert PiecesRoundTrip(t, words) <==> back == w && PiecesRoundTrip(t, rest) by {
        if back == w && PiecesRoundTrip(t, rest) {
          forall k | 0 <= k < |words| ensures CapitalizeWord(t, Lower(words[k])) == words[k] {
            if 0 < k {
              assert words[k] == rest[k - 1];
            }
          }
        }
        if PiecesRoundTrip(t, words) {
          forall k | 0 <= k < |rest| ensures CapitalizeWord(t, Lower(rest[k])) == rest[k] {
            assert rest[k] == words[k + 1];
          }
        }
      }
    }
  }

  lemma {:induction false} SplitHasNoUnderscore(s: string)
    ensures forall k :: 0 <= k < |Split(s)| ==> NoUnderscore(Split(s)[k])
  {
    if s != "" {
      SplitHasNoUnderscore(s[1..]);
    }
  }

  lemma {:induction false} JoinedHasNoUnderscore(t: Tables, words: seq<string>)
    requires forall k :: 0 <= k < |words| ==> NoUnderscore(words[k])
    ensures NoUnderscore(Joined(t, words))
  {
    if words != [] {
      JoinedHasNoUnderscore(t, words[1..]);
      var w := words[0];
      assert NoUnderscore(w);
      assert NoUnderscore(Upper(w));
      assert NoUnderscore(CapitalizeWord(t, w));
    }
  }

  lemma RoundTripPieces(t: Tables, name: string)
    ensures RoundTrips(t, name) <==> NoUnderscore(name) && PiecesRoundTrip(t, Chunks(name))
  {
    if !NoUnderscore(name) {
      var words := Split(Lower(EnvFrom(name, 0)));
      SplitHasNoUnderscore(Lower(EnvFrom(name, 0)));
      JoinedHasNoUnderscore(t, words);
    } else if name != "" {
      SplitEnv(name, 0);
      assert Split(Lower(EnvFrom(name, 0))) == Lowered(Chunks(name));
      ChunksConcat(name, 0);
      assert name[0..] == name;
      JoinedIff(t, Chunks(name));
    } else {
      assert Split(Lower(EnvFrom(name, 0))) == [""];
      assert Joined(t, [""]) == "";
    }
  }

  predicate NoLowerCase(w: string) {
    forall i :: 0 <= i < |w| ==> !IsLower(w[i])
  }

  /** It does not start in lower case, and no later letter is a capital. */
  predicate OnlyFirstCapital(w: string) {
    forall i :: 0 <= i < |w| ==> if i == 0 then !IsLower(w[i]) else !IsUpper(w[i])
  }

  /**
    What a piece must look like: all capitals if that spells an initialism, its stem and a small s if it is the plural of
    an initialism that has one, all capitals if it is another initialism and an S, and otherwise a word with no capital
    after its first letter.
   */
  predicate PieceOk(t: Tables, w: string) {
    var upper, stem := Upper(w), TrimS(Upper(w));
    if w == "" then true
    else if upper in t.initialisms then NoLowerCase(w)
    else if stem in t.initialisms && stem in t.plurals then w == stem + "s"
    else if stem in t.initialisms then NoLowerCase(w)
    else OnlyFirstCapital(w)
  }

  lemma NoLowerCaseIff(w: string)
    ensures Upper(Lower(w)) == Upper(w) && (Upper(w) == w <==> NoLowerCase(w))
  {
    if NoLowerCase(w) {
      assert Upper(w) == w;
    } else {
      var i :| 0 <= i < |w| && IsLower(w[i]);
      assert Upper(w)[i] != w[i];
    }
  }

  lemma OnlyFirstCapitalIff(w: string)
    requires w != ""
    ensures [ToUpper(Lower(w)[0])] + Lower(w)[1..] == w <==> OnlyFirstCapital(w)
  {
    var back := [ToUpper(Lower(w)[0])] + Lower(w)[1..];
    assert forall i :: 0 < i < |w| ==> back[i] == ToLower(w[i]);
  }

  lemma PieceIff(t: Tables, w: string)
    ensures CapitalizeWord(t, Lower(w)) == w <==> PieceOk(t, w)
  {
    hide Upper, Lower, NoLowerCase, OnlyFirstCapital;
    NoLowerCaseIff(w);
    if w != "" { OnlyFirstCapitalIff(w); }
  }

  /**
    For every ASCII name whatever: reading back the printed name gives the name exactly when it has no underscore and
    every piece between the printed underscores looks as it must.
   */
  lemma RoundTripIff(t: Tables, name: string)
    ensures RoundTrips(t, name) <==>
      NoUnderscore(name) && forall k :: 0 <= k < |Chunks(name)| ==> PieceOk(t, Chunks(name)[k])
  {
    RoundTripPieces(t, name);
    forall w: string ensures CapitalizeWord(t, Lower(w)) == w <==> PieceOk(t, w) {
      PieceIff(t, w);
    }
  }

  // --- names as Go programmers write them ---

  datatype Token = Word(text: string) | Initialism(text: string) | Plural(of: string)

  function Text(k: Token): string {
    match k
    case Word(w) => w
    case Initialism(a) => a
    case Plural(a) => a + "s"
  }

  function NameOf(tokens: seq<Token>): string {
    if tokens == [] then "" else Text(tokens[0]) + NameOf(tokens[1..])
  }

  /** A capital, then lower-case letters or digits, a letter first and last. */
  predicate IsCapitalised(w: string) {
    && 2 <= |w| && IsUpper(w[0]) && IsLower(w[1]) && IsLower(w[|w| - 1])
    && (forall i :: 1 <= i < |w| ==> IsLower(w[i]) || IsDigit(w[i]))
  }

  /** A capital, then capitals or digits. */
  predicate IsAllCaps(a: string) {
    a != "" && IsUpper(a[0]) && (forall i :: 0 <= i < |a| ==> IsUpper(a[i]) || IsDigit(a[i]))
  }

  /** A token that stands for itself: no word spells an initialism, with or without a final S, and no plural spells one. */
  predicate TokenOk(t: Tables, k: Token) {
    match k
    case Word(w) => IsCapitalised(w) && Upper(w) !in t.initialisms && TrimS(Upper(w)) !in t.initialisms
    case Initialism(a) => IsAllCaps(a) && a in t.initialisms
    case Plural(a) => IsAllCaps(a) && a in t.initialisms && a in t.plurals && a + "S" !in t.initialisms
  }

  /** An initialism is followed only by a word, and not by one that looks like a plural: a capital and an s. */
  predicate MayFollow(k: Token, next: Token) {
    k.Initialism? ==> next.Word? && !(|next.text| == 2 && next.text[1] == 's')
  }

  predicate WellFormed(t: Tables, tokens: seq<Token>) {
    && (forall i :: 0 <= i < |tokens| ==> TokenOk(t, tokens[i]))
    && (forall i :: 0 <= i < |tokens| - 1 ==> MayFollow(tokens[i], tokens[i + 1]))
  }

  /** A stretch of the name with no cut inside and one after it, or the end, is one chunk. */
  lemma {:induction false} OneChunk(name: string, i: nat, n: nat)
    requires 0 < n && i + n <= |name|
    requires forall j :: i < j < i + n ==> !IsCut(name, j)
    requires i + n < |name| ==> IsCut(name, i + n)
    ensures ChunksFrom(name, i) == [name[i..i + n]] + (if i + n == |name| then [] else ChunksFrom(name, i + n))
    decreases n
  {
    hide IsCut;
    if n == 1 {
      assert name[i..i + 1] == [name[i]];
    } else {
      OneChunk(name, i + 1, n - 1);
      assert !IsCut(name, i + 1);
      assert [name[i]] + name[i + 1..i + n] == name[i..i + n];
    }
  }

  /** Inside a token nothing is cut, whatever follows it. */
  lemma NoCutInside(t: Tables, k: Token, pre: string, post: string, j: nat)
    requires TokenOk(t, k) && (post != "" ==> IsUpper(post[0]))
    requires |pre| < j < |pre| + |Text(k)|
    ensures !IsCut(pre + Text(k) + post, j)
  {
    var name := pre + Text(k) + post;
    assert name[j] == Text(k)[j - |pre|] && name[j - 1] == Text(k)[j - 1 - |pre|];
    if j + 1 < |pre| + |Text(k)| {
      assert name[j + 1] == Text(k)[j + 1 - |pre|];
    } else if post != "" {
      assert name[j + 1] == post[0];
    }
    if k.Plural? && j + 1 == |pre| + |k.of| && post != "" {
      assert name[j + 2] == post[0];
    }
  }

  /** After a token that may be followed by the next one there is a cut. */
  lemma CutBetween(t: Tables, k: Token, next: Token, pre: string, post: string)
    requires TokenOk(t, k) && TokenOk(t, next) && MayFollow(k, next)
    requires post != "" ==> IsUpper(post[0])
    ensures IsCut(pre + Text(k) + (Text(next) + post), |pre| + |Text(k)|)
  {
    var name := pre + Text(k) + (Text(next) + post);
    var p := |pre| + |Text(k)|;
    assert name[p] == Text(next)[0];
    assert name[p - 1] == Text(k)[|Text(k)| - 1];
    if k.Initialism? {
      assert name[p + 1] == Text(next)[1];
      if 2 < |Text(next)| {
        assert name[p + 2] == Text(next)[2];
      }
    }
  }

  lemma StartsUpper(t: Tables, tokens: seq<Token>)
    requires WellFormed(t, tokens)
    ensures NameOf(tokens) != "" ==> IsUpper(NameOf(tokens)[0])
    ensures tokens != [] ==> NameOf(tokens) != "" && Text(tokens[0]) != ""
  {
    if tokens != [] {
      assert TokenOk(t, tokens[0]);
    }
  }

  function Texts(tokens: seq<Token>): seq<string> {
    if tokens == [] then [] else [Text(tokens[0])] + Texts(tokens[1..])
  }

  lemma NoCutsInside(t: Tables, k: Token, pre: string, post: string)
    requires TokenOk(t, k) && (post != "" ==> IsUpper(post[0]))
    ensures forall j :: |pre| < j < |pre| + |Text(k)| ==> !IsCut(pre + Text(k) + post, j)
  {
    hide IsCut, TokenOk;
    forall j | |pre| < j < |pre| + |Text(k)| ensures !IsCut(pre + Text(k) + post, j) {
      NoCutInside(t, k, pre, post, j);
    }
  }

  /** A token is cut off from the next one, and the last token ends the name. */
  lemma CutAfter(t: Tables, pre: string, tokens: seq<Token>)
    requires tokens != [] && WellFormed(t, tokens) && NameOf(tokens[1..]) != ""
    ensures IsCut(pre + Text(tokens[0]) + NameOf(tokens[1..]), |pre| + |Text(tokens[0])|)
  {
    hide IsCut;
    var rest := tokens[1..];
    RestWellFormed(t, tokens);
    RestWellFormed(t, rest);
    StartsUpper(t, rest[1..]);
    assert MayFollow(tokens[0], tokens[1]);
    assert NameOf(rest) == Text(rest[0]) + NameOf(rest[1..]);
    CutBetween(t, tokens[0], rest[0], pre, NameOf(rest[1..]));
  }

  lemma NameOfCons(t: Tables, tokens: seq<Token>)
    requires tokens != [] && WellFormed(t, tokens)
    ensures TokenOk(t, tokens[0]) && Text(tokens[0]) != "" && WellFormed(t, tokens[1..])
    ensures NameOf(tokens) == Text(tokens[0]) + NameOf(tokens[1..])
    ensures NameOf(tokens[1..]) != "" ==> IsUpper(NameOf(tokens[1..])[0])
    ensures tokens[1..] == [] <==> NameOf(tokens[1..]) == ""
  {
    RestWellFormed(t, tokens);
    StartsUpper(t, tokens);
    StartsUpper(t, tokens[1..]);
  }

  /** The first chunk of what is left of a well-formed name is its next token. */
  lemma FirstChunk(t: Tables, pre: string, tokens: seq<Token>)
    requires tokens != [] && WellFormed(t, tokens)
    ensures
      var k, rest := tokens[0], tokens[1..];
      var name := pre + Text(k) + NameOf(rest);
      && name == pre + NameOf(tokens) && Text(k) != "" && WellFormed(t, rest)
      && ChunksFrom(name, |pre|) == [Text(k)] + if rest == [] then [] else ChunksFrom(name, |pre + Text(k)|)
  {
    hide IsCut, ChunksFrom, TokenOk, MayFollow, WellFormed, NameOf, Text;
    NameOfCons(t, tokens);
    var k, post := tokens[0], NameOf(tokens[1..]);
    NoCutsInside(t, k, pre, post);
    if post != "" { CutAfter(t, pre, tokens); }
    ChunkInTheMiddle(pre, Text(k), post);
  }

  lemma ChunkInTheMiddle(pre: string, w: string, post: string)
    requires w != "" && forall j :: |pre| < j < |pre| + |w| ==> !IsCut(pre + w + post, j)
    requires post != "" ==> IsCut(pre + w + post, |pre| + |w|)
    ensures ChunksFrom(pre + w + post, |pre|) == [w] + if post == "" then [] else ChunksFrom(pre + w + post, |pre + w|)
  {
    hide IsCut, ChunksFrom;
    OneChunk(pre + w + post, |pre|, |w|);
    assert (pre + w + post)[|pre|..|pre| + |w|] == w;
  }

  /** The chunks of a well-formed name are its tokens. */
  lemma {:induction false} ChunksAreTokens(t: Tables, pre: string, tokens: seq<Token>)
    requires tokens != [] && WellFormed(t, tokens)
    ensures |pre| < |pre + NameOf(tokens)| && ChunksFrom(pre + NameOf(tokens), |pre|) == Texts(tokens)
    decreases |tokens|
  {
    hide WellFormed, ChunksFrom, NameOf;
    FirstChunk(t, pre, tokens);
    if tokens[1..] != [] {
      ChunksAreTokens(t, pre + Text(tokens[0]), tokens[1..]);
    }
  }

  lemma RestWellFormed(t: Tables, tokens: seq<Token>)
    requires tokens != [] && WellFormed(t, tokens)
    ensures WellFormed(t, tokens[1..])
  {
    var rest := tokens[1..];
    forall i | 0 <= i < |rest| ensures TokenOk(t, rest[i]) && (i < |rest| - 1 ==> MayFollow(rest[i], rest[i + 1])) {
      assert rest[i] == tokens[i + 1];
      assert TokenOk(t, tokens[i + 1]);
      if i < |rest| - 1 {
        assert MayFollow(tokens[i + 1], tokens[i + 2]);
      }
    }
  }

  /** Each token is read back as it was. */
  lemma TokenReadsBack(t: Tables, k: Token)
    requires TokenOk(t, k)
    ensures CapitalizeWord(t, Lower(Text(k))) == Text(k)
  {
    var w := Text(k);
    assert Upper(Lower(w)) == Upper(w);
    match k
    case Word(_) =>
      assert [ToUpper(Lower(w)[0])] + Lower(w)[1..] == w;
    case Initialism(_) =>
      assert Upper(w) == w;
    case Plural(a) =>
      assert Upper(w) == a + "S";
      assert TrimS(a + "S") == a;
  }

  lemma TokenHasNoUnderscore(t: Tables, k: Token)
    requires TokenOk(t, k)
    ensures NoUnderscore(Text(k))
  {
  }

  lemma PiecesCons(t: Tables, w: string, rest: seq<string>)
    requires CapitalizeWord(t, Lower(w)) == w && PiecesRoundTrip(t, rest)
    ensures PiecesRoundTrip(t, [w] + rest)
  {
    hide CapitalizeWord;
  }

  lemma {:induction false} TokensReadBack(t: Tables, tokens: seq<Token>)
    requires WellFormed(t, tokens)
    ensures PiecesRoundTrip(t, Texts(tokens)) && NoUnderscore(NameOf(tokens))
  {
    hide TokenOk, MayFollow, CapitalizeWord, Lower, PiecesRoundTrip, Text;
    if tokens == [] {
      NoPieces(t);
    } else {
      var k, rest := tokens[0], tokens[1..];
      RestWellFormed(t, tokens);
      TokensReadBack(t, rest);
      TokenReadsBack(t, k);
      TokenHasNoUnderscore(t, k);
      PiecesCons(t, Text(k), Texts(rest));
    }
  }

  lemma NoPieces(t: Tables)
    ensures PiecesRoundTrip(t, [])
  {
  }

  /**
    The round trip: a name made of capitalised words, initialisms and allowed plurals, in which an initialism is followed
    only by a word, is read back from its printed form.
   */
  lemma NamesRoundTrip(t: Tables, tokens: seq<Token>)
    requires WellFormed(t, tokens)
    ensures RoundTrips(t, NameOf(tokens))
  {
    TokensReadBack(t, tokens);
    if tokens == [] {
      assert PiecesRoundTrip(t, [""]);
    } else {
      StartsUpper(t, tokens);
      ChunksAreTokens(t, "", tokens);
      assert "" + NameOf(tokens) == NameOf(tokens);
    }
    RoundTripPieces(t, NameOf(tokens));
  }

  /** Before the initialisms: nothing, or what ends in a small letter. */
  predicate IsFront(pre: string) {
    pre == "" || IsLower(pre[|pre| - 1])
  }

  /** After them: nothing, or what starts with a capitalised word that does not look like a plural. */
  predicate IsTail(w: string) {
    w == "" ||
    (2 <= |w| && IsUpper(w[0]) && IsLower(w[1]) && !(w[1] == 's' && (|w| == 2 || IsUpper(w[2]))))
  }

  lemma AllCapsTogether(a: string, b: string)
    requires IsAllCaps(a) && IsAllCaps(b)
    ensures IsAllCaps(a + b)
  {
  }

  /** What follows the first `k` words does not depend on the first, or on a word put in front of them. */
  lemma WordsAfter(w: string, words: seq<string>, k: nat)
    requires 1 <= k <= |words|
    ensures ([w] + words)[k + 1..] == words[k..] && ([w] + words[1..])[k..] == words[k..]
  {
  }

  lemma ChunksStep(name: string, j: nat)
    requires j + 1 < |name|
    ensures
      var rest := ChunksFrom(name, j + 1);
      ChunksFrom(name, j) == if IsCut(name, j + 1) then [[name[j]]] + rest else [[name[j]] + rest[0]] + rest[1..]
  {
  }

  /** The chunks from a cut on are the last chunks of the name. */
  lemma {:induction false} ChunksFromCut(name: string, j: nat, i: nat) returns (k: nat)
    requires j < i < |name| && IsCut(name, i)
    ensures 1 <= k <= |ChunksFrom(name, j)| && ChunksFrom(name, j)[k..] == ChunksFrom(name, i)
    decreases i - j
  {
    hide IsCut, ChunksFrom;
    ChunksStep(name, j);
    k := 1;
    if j + 1 < i {
      k := ChunksFromCut(name, j + 1, i);
      var rest := ChunksFrom(name, j + 1);
      if IsCut(name, j + 1) {
        WordsAfter([name[j]], rest, k);
        k := k + 1;
      } else {
        WordsAfter([name[j]] + rest[0], rest, k);
      }
    }
  }

  lemma NoCutInCaps(pre: string, a: string, w: string, j: nat)
    requires IsAllCaps(a) && IsTail(w) && |pre| < j < |pre| + |a|
    ensures !IsCut(pre + a + w, j)
  {
    var name := pre + a + w;
    assert name[j - 1] == a[j - 1 - |pre|];
    if j + 1 < |pre| + |a| {
      assert name[j + 1] == a[j + 1 - |pre|];
    } else if w != "" {
      assert name[j + 1] == w[0];
    }
  }

  lemma CapsEnd(pre: string, a: string, w: string)
    requires IsAllCaps(a) && IsTail(w) && w != ""
    ensures IsCut(pre + a + w, |pre| + |a|)
  {
    var name, n := pre + a + w, |pre| + |a|;
    assert name[n] == w[0] && name[n + 1] == w[1] && (2 < |w| ==> name[n + 2] == w[2]);
  }

  /** What is all capitals is printed as one piece, two initialisms in a row included. */
  lemma CapsAreOneChunk(pre: string, a: string, w: string)
    requires IsFront(pre) && IsAllCaps(a) && IsTail(w)
    ensures a in Chunks(pre + a + w)
  {
    var name := pre + a + w;
    if pre != "" {
      assert name[|pre|] == a[0] && name[|pre| - 1] == pre[|pre| - 1];
      var k := ChunksFromCut(name, 0, |pre|);
      assert ChunksFrom(name, 0)[k] == ChunksFrom(name, 0)[k..][0];
    }
    forall j | |pre| < j < |pre| + |a| ensures !IsCut(name, j) {
      NoCutInCaps(pre, a, w, j);
    }
    if w != "" { CapsEnd(pre, a, w); }
    hide IsCut;
    ChunkInTheMiddle(pre, a, w);
    assert ChunksFrom(name, |pre|)[0] == a;
  }

  lemma PairIsNoPiece(t: Tables, a: string, b: string)
    requires IsAllCaps(a) && IsAllCaps(b)
    requires a + b !in t.initialisms && TrimS(a + b) !in t.initialisms
    ensures !PieceOk(t, a + b)
  {
    var pair := a + b;
    assert Upper(pair) == pair;
    assert pair[|a|] == b[0];
  }

  /**
    Two initialisms in a row do not come apart, wherever they stand in a name: unless the parser knows the two as one,
    the name is printed so that it is read back wrong.
   */
  lemma AdjacentInitialisms(t: Tables, pre: string, a: string, b: string, w: string)
    requires IsFront(pre) && IsAllCaps(a) && IsAllCaps(b) && IsTail(w)
    requires a + b !in t.initialisms && TrimS(a + b) !in t.initialisms
    ensures !RoundTrips(t, pre + (a + b) + w)
  {
    AllCapsTogether(a, b);
    CapsAreOneChunk(pre, a + b, w);
    PairIsNoPiece(t, a, b);
    RoundTripIff(t, pre + (a + b) + w);
  }

  /** Two fields of the server's own configuration are such names. */
  lemma ApiKeysAreMisread(t: Tables)
    requires "GRPCAPI" !in t.initialisms
    ensures !RoundTrips(t, "GRPCAPIKey") && !RoundTrips(t, "AccountGRPCAPIKey")
  {
    assert "GRPC" + "API" == "GRPCAPI";
    assert "" + "GRPCAPI" + "Key" == "GRPCAPIKey" && "Account" + "GRPCAPI" + "Key" == "AccountGRPCAPIKey";
    AdjacentInitialisms(t, "", "GRPC", "API", "Key");
    AdjacentInitialisms(t, "Account", "GRPC", "API", "Key");
  }
}

/** Slugs and the capability ids built from Matter cluster and attribute names. */
module MatterModel {
  import opened Sequences
  import opened Text
  import opened MatterNames

  // ---- Slugs ----

  predicate EndsWithUnderscore(s: string) {
    s != [] && s[|s| - 1] == '_'
  }

  /** The text built so far, and whether the last character was a lower-case letter or a digit. */
  datatype Progress = Progress(out: string, wasLower: bool)

  function OneMore(p: Progress, c: char): Progress {
    if IsAlnum(c) then
      Progress(p.out + (if IsUpper(c) && p.wasLower then "_" else "") + [ToLower(c)], IsLower(c) || IsDigit(c))
    else Progress(p.out + if EndsWithUnderscore(p.out) then "" else "_", false)
  }

  function Built(input: string): Progress {
    if input == [] then Progress([], false) else OneMore(Built(input[..|input| - 1]), input[|input| - 1])
  }

  function Trimmed(s: string): (t: string)
    ensures !EndsWithUnderscore(t) && t <= s
  {
    if EndsWithUnderscore(s) then Trimmed(s[..|s| - 1]) else s
  }

  function Slug(input: string): string {
    var t := Trimmed(Built(input).out);
    if t == [] then "value" else t
  }

  method Slugify(input: string) returns (slug: string)
    ensures slug == Slug(input)
  {
    var out := "";
    var wasLower := false;
    for i := 0 to |input|
      invariant Progress(out, wasLower) == Built(input[..i])
    {
      assert input[..i + 1][..i] == input[..i];
      var c := input[i];
      if IsAlnum(c) {
        if IsUpper(c) && wasLower {
          out := out + "_";
        }
        out := out + [ToLower(c)];
        wasLower := IsLower(c) || IsDigit(c);
      } else {
        if !EndsWithUnderscore(out) {
          out := out + "_";
        }
        wasLower := false;
      }
    }
    assert input[..|input|] == input;
    while EndsWithUnderscore(out)
      invariant Trimmed(out) == Trimmed(Built(input).out)
      decreases |out|
    {
      out := out[..|out| - 1];
    }
    return if out == [] then "value" else out;
  }

  predicate SlugChar(c: char) { IsLower(c) || IsDigit(c) || c == '_' }

  /** Only slug characters, and no two underscores in a row. */
  predicate Clean(s: string) {
    && (forall i :: 0 <= i < |s| ==> SlugChar(s[i]))
    && (forall i :: 0 < i < |s| && s[i] == '_' ==> s[i - 1] != '_')
  }

  // ---- Slugs letter by letter ----

  /** A new word begins at `c` after `a`: what lies between is no letter or digit, or a capital follows a small one. */
  predicate NewWord(a: char, c: char) {
    !IsAlnum(a) || (IsUpper(c) && !IsUpper(a))
  }

  /** The letters and digits in lower case, each preceded by an underscore where a new word begins. */
  function Spelled(input: string): string {
    if input == [] then []
    else
      var n := |input| - 1;
      Spelled(input[..n])
      + if !IsAlnum(input[n]) then ""
        else (if n > 0 && NewWord(input[n - 1], input[n]) then "_" else "") + [ToLower(input[n])]
  }

  lemma {:induction false} SpelledEnds(input: string)
    ensures !EndsWithUnderscore(Spelled(input))
    ensures Spelled(input) == [] <==> forall i :: 0 <= i < |input| ==> !IsAlnum(input[i])
  {
    if input != [] {
      SpelledEnds(input[..|input| - 1]);
    }
  }

  /** A gap: the text so far ends in something that is no letter and no digit. */
  predicate Gap(input: string) {
    input != [] && !IsAlnum(input[|input| - 1])
  }

  function Mark(gap: bool): string {
    if gap then "_" else ""
  }

  /** One more character after `spelled`, with the underscore of a gap or without. */
  lemma OneMoreSpelled(spelled: string, gap: bool, wasLower: bool, c: char)
    requires !EndsWithUnderscore(spelled) && (gap ==> !wasLower)
    ensures OneMore(Progress(spelled + Mark(gap), wasLower), c)
         == if !IsAlnum(c) then Progress(spelled + "_", false)
            else Progress(spelled + (Mark(gap || (IsUpper(c) && wasLower)) + [ToLower(c)]), !IsUpper(c))
  {
    assert spelled + "" == spelled && spelled + "_" + "" == spelled + "_";
    Assoc(spelled, Mark(gap || (IsUpper(c) && wasLower)), [ToLower(c)]);
  }

  /** The slug under construction: what is spelled so far, and one underscore after a gap. */
  lemma {:induction false} BuiltIsSpelled(input: string)
    ensures Built(input) == Progress(Spelled(input) + Mark(Gap(input)),
                                     input != [] && !Gap(input) && !IsUpper(input[|input| - 1]))
  {
    if input != [] {
      var before, c := input[..|input| - 1], input[|input| - 1];
      BuiltIsSpelled(before);
      SpelledEnds(before);
      OneMoreSpelled(Spelled(before), Gap(before), Built(before).wasLower, c);
      assert Spelled(before) + "" == Spelled(before);
      assert Spelled(input) + "" == Spelled(input);
    }
  }

  lemma TrimmedMark(t: string, gap: bool)
    requires !EndsWithUnderscore(t)
    ensures Trimmed(t + Mark(gap)) == t
  {
    if gap {
      assert (t + "_")[..|t|] == t;
    } else {
      assert t + "" == t;
    }
  }

  /** For every input the slug is what is spelled, or "value" when the input has no letter and no digit. */
  lemma SlugSpelled(input: string)
    ensures Slug(input) == if forall i :: 0 <= i < |input| ==> !IsAlnum(input[i]) then "value" else Spelled(input)
  {
    BuiltIsSpelled(input);
    SpelledEnds(input);
    TrimmedMark(Spelled(input), Gap(input));
  }

  lemma OneMoreClean(s: string, gap: bool, c: char)
    requires Clean(s) && !EndsWithUnderscore(s) && SlugChar(c) && c != '_'
    ensures Clean(s + (Mark(gap) + [c]))
  {
  }

  lemma {:induction false} SpelledClean(input: string)
    ensures Clean(Spelled(input))
  {
    if input != [] {
      var n := |input| - 1;
      SpelledClean(input[..n]);
      SpelledEnds(input[..n]);
      if IsAlnum(input[n]) {
        OneMoreClean(Spelled(input[..n]), n > 0 && NewWord(input[n - 1], input[n]), ToLower(input[n]));
      } else {
        assert Spelled(input) == Spelled(input[..n]);
      }
    }
  }

  /** A slug is never empty, has only lower-case letters, digits and single underscores, and does not end in one. */
  lemma SlugClean(input: string)
    ensures Slug(input) != [] && Clean(Slug(input)) && !EndsWithUnderscore(Slug(input))
  {
    SlugSpelled(input);
    SpelledEnds(input);
    if Spelled(input) == [] {
      ValueClean();
    } else {
      SpelledClean(input);
    }
  }

  lemma ValueClean()
    ensures Clean("value") && !EndsWithUnderscore("value")
  {
  }

  lemma {:induction false} BuiltKeepsClean(s: string)
    requires Clean(s)
    ensures Built(s).out == s
  {
    if s != [] {
      var before, c := s[..|s| - 1], s[|s| - 1];
      BuiltKeepsClean(before);
      assert s == before + [c];
      assert SlugChar(c) && (c == '_' ==> !EndsWithUnderscore(before)) by {
        assert |s| > 1 ==> s[|s| - 2] == before[|before| - 1];
      }
    }
  }

  /** Slugging a slug changes nothing. */
  lemma SlugIdempotent(input: string)
    ensures Slug(Slug(input)) == Slug(input)
  {
    SlugClean(input);
    BuiltKeepsClean(Slug(input));
  }

  // ---- Slugs without their underscores ----

  function Stripped(s: string): string {
    if s == [] then [] else Stripped(s[..|s| - 1]) + if s[|s| - 1] == '_' then [] else [s[|s| - 1]]
  }

  lemma {:induction false} StrippedConcat(a: string, b: string)
    ensures Stripped(a + b) == Stripped(a) + Stripped(b)
  {
    if b == [] {
      assert a + b == a;
    } else {
      assert (a + b)[..|a + b| - 1] == a + b[..|b| - 1];
      StrippedConcat(a, b[..|b| - 1]);
    }
  }

  lemma {:induction false} StrippedFree(s: string)
    requires Free(s, '_')
    ensures Stripped(s) == s
  {
    if s != [] {
      StrippedFree(s[..|s| - 1]);
      assert s == s[..|s| - 1] + [s[|s| - 1]];
    }
  }

  lemma StrippedOne(c: char)
    ensures Stripped([c]) == if c == '_' then [] else [c]
  {
    assert [c][..0] == [];
  }

  /** The letters and digits of a text, in order. */
  function Alnums(s: string): string {
    if s == [] then [] else Alnums(s[..|s| - 1]) + if IsAlnum(s[|s| - 1]) then [s[|s| - 1]] else []
  }

  lemma {:induction false} AlnumsOfName(name: string)
    requires AllAlnum(name)
    ensures Alnums(name) == name
  {
    if name != [] {
      AlnumsOfName(name[..|name| - 1]);
      assert name == name[..|name| - 1] + [name[|name| - 1]];
    }
  }

  lemma StepStripped(p: Progress, c: char)
    ensures Stripped(OneMore(p, c).out) == Stripped(p.out) + if IsAlnum(c) then [ToLower(c)] else []
  {
    StrippedOne('_');
    if IsAlnum(c) {
      StrippedOne(ToLower(c));
      var sep := if IsUpper(c) && p.wasLower then "_" else "";
      StrippedConcat(p.out, sep);
      StrippedConcat(p.out + sep, [ToLower(c)]);
      assert Stripped(p.out) + [] == Stripped(p.out);
    } else {
      var sep := if EndsWithUnderscore(p.out) then "" else "_";
      StrippedConcat(p.out, sep);
      assert Stripped(sep) == [];
    }
  }

  lemma LowerOneMore(s: string, c: char)
    ensures Lower(s + [c]) == Lower(s) + [ToLower(c)]
  {
  }

  lemma {:induction false} BuiltStripped(input: string)
    ensures Stripped(Built(input).out) == Lower(Alnums(input))
  {
    if input != [] {
      var before, c := input[..|input| - 1], input[|input| - 1];
      BuiltStripped(before);
      StepStripped(Built(before), c);
      LowerOneMore(Alnums(before), c);
      assert Alnums(before) + [] == Alnums(before);
      assert Lower(Alnums(before)) + [] == Lower(Alnums(before));
    }
  }

  lemma {:induction false} TrimmedStripped(s: string)
    ensures Stripped(Trimmed(s)) == Stripped(s)
  {
    if EndsWithUnderscore(s) {
      TrimmedStripped(s[..|s| - 1]);
      assert Stripped(s[..|s| - 1]) + [] == Stripped(s[..|s| - 1]);
    }
  }

  /**
   * For every input, a slug without its underscores is the lower-case letters and digits of the input,
   * or "value" when it has none.
   */
  lemma SlugStripped(input: string)
    ensures Stripped(Slug(input)) == if Alnums(input) == [] then "value" else Lower(Alnums(input))
  {
    BuiltStripped(input);
    TrimmedStripped(Built(input).out);
    TrimmedEnds(Built(input).out);
    ValueStripped();
  }

  lemma ValueStripped()
    ensures Stripped("value") == "value"
  {
    StrippedFree("value");
  }

  /** What is left after trimming ends in a letter or a digit, which stripping keeps. */
  lemma TrimmedEnds(s: string)
    ensures Trimmed(s) == [] <==> Stripped(s) == []
  {
    TrimmedStripped(s);
    var t := Trimmed(s);
    if t != [] {
      assert Stripped(t) == Stripped(t[..|t| - 1]) + [t[|t| - 1]];
    }
  }

  // ---- Capability ids ----

  function ClusterSlug(cluster: nat): string {
    if !NamedCluster(cluster) then "cluster_" + Decimal(cluster) else Slug(ClusterName(cluster))
  }

  function AttributeSlug(cluster: nat, attribute: nat): string {
    match AttributeName(cluster, attribute)
    case Some(name) => Slug(name)
    case None => "attr_" + Decimal(attribute)
  }

  function CapabilityId(endpoint: nat, cluster: nat, attribute: nat): string {
    "matter_ep" + Decimal(endpoint) + "_" + ClusterSlug(cluster) + "_" + AttributeSlug(cluster, attribute)
  }

  /** Every id, letter by letter: named parts are spelled, the others are numbered. */
  lemma CapabilityIdSpelled(endpoint: nat, cluster: nat, attribute: nat)
    ensures var c := if NamedCluster(cluster) then Spelled(ClusterName(cluster)) else "cluster_" + Decimal(cluster);
      var a := match AttributeName(cluster, attribute)
        case Some(name) => Spelled(name)
        case None => "attr_" + Decimal(attribute);
      CapabilityId(endpoint, cluster, attribute) == "matter_ep" + Decimal(endpoint) + "_" + c + "_" + a
  {
    if NamedCluster(cluster) {
      NameSpelled(ClusterName(cluster));
    }
    if AttributeName(cluster, attribute).Some? {
      NameSpelled(AttributeName(cluster, attribute).value);
    }
  }

  lemma NameSpelled(name: Name)
    ensures Slug(name) == Spelled(name)
  {
    SlugSpelled(name);
    assert IsAlnum(name[0]);
  }

  /** The cluster part without underscores. */
  function ClusterText(cluster: nat): string {
    if NamedCluster(cluster) then Lower(ClusterName(cluster)) else "cluster" + Decimal(cluster)
  }

  /** The attribute part without underscores. */
  function AttributeText(cluster: nat, attribute: nat): string {
    match AttributeName(cluster, attribute)
    case Some(name) => Lower(name)
    case None => "attr" + Decimal(attribute)
  }

  lemma DigitsFree(n: nat)
    ensures Free(Decimal(n), '_')
  {
    assert AllDigits(Decimal(n));
  }

  lemma WordStripped(word: string, n: nat)
    requires Free(word, '_')
    ensures Stripped(word + "_" + Decimal(n)) == word + Decimal(n)
  {
    StrippedConcat(word + "_", Decimal(n));
    StrippedConcat(word, "_");
    StrippedFree(word);
    DigitsFree(n);
    StrippedFree(Decimal(n));
    StrippedOne('_');
    assert word + [] == word;
  }

  lemma ClusterSlugStripped(cluster: nat)
    ensures Stripped(ClusterSlug(cluster)) == ClusterText(cluster)
  {
    if NamedCluster(cluster) {
      AlnumsOfName(ClusterName(cluster));
      SlugStripped(ClusterName(cluster));
    } else {
      WordStripped("cluster", cluster);
      assert "cluster" + "_" == "cluster_";
    }
  }

  lemma AttributeSlugStripped(cluster: nat, attribute: nat)
    ensures Stripped(AttributeSlug(cluster, attribute)) == AttributeText(cluster, attribute)
  {
    if AttributeName(cluster, attribute).Some? {
      AlnumsOfName(AttributeName(cluster, attribute).value);
      SlugStripped(AttributeName(cluster, attribute).value);
    } else {
      WordStripped("attr", attribute);
      assert "attr" + "_" == "attr_";
    }
  }

  lemma SlugsStripped(cluster: nat, attribute: nat)
    ensures Stripped(ClusterSlug(cluster)) == ClusterText(cluster)
    ensures Stripped(AttributeSlug(cluster, attribute)) == AttributeText(cluster, attribute)
  {
    ClusterSlugStripped(cluster);
    AttributeSlugStripped(cluster, attribute);
  }

  // ---- No two capabilities share an id ----

  lemma NameText(name: Name)
    ensures |Lower(name)| >= 4 && !IsDigit(Lower(name)[0]) && !(Lower(name)[0] == 'a' && Lower(name)[1] == 't')
  {
  }

  lemma AttributeTextShape(cluster: nat, a: nat)
    ensures var t := AttributeText(cluster, a);
      |t| >= 4 && !IsDigit(t[0]) && (AttributeName(cluster, a).None? <==> t[0] == 'a' && t[1] == 't')
  {
    var name := AttributeName(cluster, a);
    if name.Some? {
      NameText(name.value);
    } else {
      assert ("attr" + Decimal(a))[0] == 'a' && ("attr" + Decimal(a))[1] == 't';
    }
  }

  lemma AttributeTextInjective(cluster: nat, a: nat, b: nat)
    requires AttributeText(cluster, a) == AttributeText(cluster, b)
    ensures a == b
  {
    AttributeTextShape(cluster, a);
    AttributeTextShape(cluster, b);
    if AttributeName(cluster, a).Some? {
      AttributesReadBack(cluster, a);
      AttributesReadBack(cluster, b);
    } else {
      assert AttributeText(cluster, a)[4..] == Decimal(a);
      assert AttributeText(cluster, b)[4..] == Decimal(b);
      DecimalInjective(a, b);
    }
  }

  lemma DigitsThenText(m: nat, x: string, n: nat, y: string)
    requires x != [] && !IsDigit(x[0]) && y != [] && !IsDigit(y[0])
    requires Decimal(m) + x == Decimal(n) + y
    ensures m == n && x == y
  {
    DigitRunOf(Decimal(m), x);
    DigitRunOf(Decimal(n), y);
    var t := Decimal(m) + x;
    assert Decimal(m) == t[..DigitRun(t)] == Decimal(n);
    DecimalInjective(m, n);
    assert x == t[DigitRun(t)..] == y;
  }

  lemma WordThenText(word: string, x: string, y: string)
    requires word + x == word + y
    ensures x == y
  {
    assert x == (word + x)[|word|..] == (word + y)[|word|..] == y;
  }

  lemma ClusterTextShape(cluster: nat, rest: string)
    ensures var t := ClusterText(cluster) + rest;
      && |t| >= 5
      && (NamedCluster(cluster) ==> ClusterFrom(t) == cluster && !(t[0] == 'c' && t[1] == 'l'))
      && (!NamedCluster(cluster) ==> t[0] == 'c' && t[1] == 'l' && t == "cluster" + (Decimal(cluster) + rest))
  {
    if NamedCluster(cluster) {
      ClusterReadsBack(cluster, rest);
    }
  }

  lemma TextInjective(c1: nat, x: string, c2: nat, y: string)
    requires x != [] && !IsDigit(x[0]) && y != [] && !IsDigit(y[0])
    requires ClusterText(c1) + x == ClusterText(c2) + y
    ensures c1 == c2 && x == y
  {
    ClusterTextShape(c1, x);
    ClusterTextShape(c2, y);
    if !NamedCluster(c1) {
      WordThenText("cluster", Decimal(c1) + x, Decimal(c2) + y);
      DigitsThenText(c1, x, c2, y);
    } else {
      WordThenText(ClusterText(c1), x, y);
    }
  }

  lemma PairStripped(cluster: string, attribute: string)
    ensures Stripped(cluster + ("_" + attribute)) == Stripped(cluster) + Stripped(attribute)
  {
    StrippedConcat(cluster, "_" + attribute);
    StrippedConcat("_", attribute);
    StrippedOne('_');
  }

  lemma IdShape(endpoint: string, cluster: string, attribute: string)
    ensures "matter_ep" + endpoint + "_" + cluster + "_" + attribute
         == "matter_ep" + (endpoint + ("_" + (cluster + ("_" + attribute))))
  {
  }

  lemma EndpointAndRest(e1: nat, s1: string, t1: string, e2: nat, s2: string, t2: string)
    requires "matter_ep" + Decimal(e1) + "_" + s1 + "_" + t1 == "matter_ep" + Decimal(e2) + "_" + s2 + "_" + t2
    ensures e1 == e2 && s1 + ("_" + t1) == s2 + ("_" + t2)
  {
    var r1, r2 := s1 + ("_" + t1), s2 + ("_" + t2);
    IdShape(Decimal(e1), s1, t1);
    IdShape(Decimal(e2), s2, t2);
    WordThenText("matter_ep", Decimal(e1) + ("_" + r1), Decimal(e2) + ("_" + r2));
    DigitsThenText(e1, "_" + r1, e2, "_" + r2);
    WordThenText("_", r1, r2);
  }

  /** Different endpoints, clusters or attributes, named or not, never share a capability id. */
  lemma CapabilityIdInjective(e1: nat, c1: nat, a1: nat, e2: nat, c2: nat, a2: nat)
    requires CapabilityId(e1, c1, a1) == CapabilityId(e2, c2, a2)
    ensures e1 == e2 && c1 == c2 && a1 == a2
  {
    EndpointAndRest(e1, ClusterSlug(c1), AttributeSlug(c1, a1), e2, ClusterSlug(c2), AttributeSlug(c2, a2));
    PairStripped(ClusterSlug(c1), AttributeSlug(c1, a1));
    PairStripped(ClusterSlug(c2), AttributeSlug(c2, a2));
    SlugsStripped(c1, a1);
    SlugsStripped(c2, a2);
    AttributeTextShape(c1, a1);
    AttributeTextShape(c2, a2);
    TextInjective(c1, AttributeText(c1, a1), c2, AttributeText(c2, a2));
    AttributeTextInjective(c1, a1, a2);
  }
}

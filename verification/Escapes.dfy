/** Chained single-character replacements, as the printers write them, and what they amount to. */
module Escapes {
  import opened Wrappers
  import opened Sequences
  import opened Text

  /** `str::replace` of one character by a string. */
  function Replace(s: string, c: char, repl: string): string {
    if s == [] then [] else (if s[0] == c then repl else [s[0]]) + Replace(s[1..], c, repl)
  }

  lemma {:induction false} ReplaceConcat(a: string, b: string, c: char, repl: string)
    ensures Replace(a + b, c, repl) == Replace(a, c, repl) + Replace(b, c, repl)
  {
    if a == [] {
      assert a + b == b;
    } else {
      assert (a + b)[1..] == a[1..] + b;
      ReplaceConcat(a[1..], b, c, repl);
    }
  }

  lemma ReplaceOne(x: char, c: char, repl: string)
    ensures Replace([x], c, repl) == if x == c then repl else [x]
  {
    assert [x][1..] == [];
  }

  lemma {:induction false} ReplaceMisses(s: string, c: char, repl: string)
    requires Free(s, c)
    ensures Replace(s, c, repl) == s
  {
    if s != [] {
      ReplaceMisses(s[1..], c, repl);
    }
  }

  function EscapeMeasurement(value: string): string {
    Replace(Replace(Replace(value, '\\', "\\\\"), ',', "\\,"), ' ', "\\ ")
  }

  /** Tag keys, tag values and field keys share one escape. */
  function EscapeTag(value: string): string {
    Replace(Replace(Replace(Replace(value, '\\', "\\\\"), ',', "\\,"), ' ', "\\ "), '=', "\\=")
  }

  function EscapeFieldString(value: string): string {
    Replace(Replace(value, '\\', "\\\\"), '"', "\\\"")
  }

  function HtmlEscape(value: string): string {
    Replace(Replace(Replace(Replace(Replace(value, '&', "&amp;"), '<', "&lt;"), '>', "&gt;"), '"', "&quot;"),
            '\'', "&#39;")
  }

  const MEASUREMENT_SPECIALS: set<char> := {'\\', ',', ' '}
  const TAG_SPECIALS: set<char> := {'\\', ',', ' ', '='}
  const STRING_SPECIALS: set<char> := {'\\', '"'}

  /** One simultaneous pass: every special character gets one backslash in front. */
  function Slashed(s: string, specials: set<char>): string {
    if s == [] then [] else (if s[0] in specials then ['\\', s[0]] else [s[0]]) + Slashed(s[1..], specials)
  }

  function Entity(c: char): string {
    if c == '&' then "&amp;" else if c == '<' then "&lt;" else if c == '>' then "&gt;"
    else if c == '"' then "&quot;" else if c == '\'' then "&#39;" else [c]
  }

  function Entities(s: string): string {
    if s == [] then [] else Entity(s[0]) + Entities(s[1..])
  }

  /** The measurement escape is one simultaneous substitution. */
  lemma {:induction false} MeasurementIsOnePass(s: string)
    ensures EscapeMeasurement(s) == Slashed(s, MEASUREMENT_SPECIALS)
  {
    if s != [] {
      var h, t := [s[0]], s[1..];
      assert h + t == s;
      ReplaceConcat(h, t, '\\', "\\\\");
      var h1, t1 := Replace(h, '\\', "\\\\"), Replace(t, '\\', "\\\\");
      ReplaceConcat(h1, t1, ',', "\\,");
      ReplaceConcat(Replace(h1, ',', "\\,"), Replace(t1, ',', "\\,"), ' ', "\\ ");
      MeasurementIsOnePass(t);
      MeasurementChar(s[0]);
      SlashedOne(s[0], MEASUREMENT_SPECIALS);
    }
  }

  lemma SlashedOne(c: char, specials: set<char>)
    ensures Slashed([c], specials) == if c in specials then ['\\', c] else [c]
  {
    assert [c][1..] == [];
  }

  lemma MeasurementChar(c: char)
    ensures EscapeMeasurement([c]) == Slashed([c], MEASUREMENT_SPECIALS)
  {
    SlashedOne(c, MEASUREMENT_SPECIALS);
    ReplaceOne(c, '\\', "\\\\");
    if c == '\\' {
      ReplaceMisses("\\\\", ',', "\\,");
      ReplaceMisses("\\\\", ' ', "\\ ");
    } else {
      ReplaceOne(c, ',', "\\,");
      ReplaceOne(c, ' ', "\\ ");
      ReplaceMisses("\\,", ' ', "\\ ");
    }
  }

  /** The tag escape is one simultaneous substitution. */
  lemma {:induction false} TagIsOnePass(s: string)
    ensures EscapeTag(s) == Slashed(s, TAG_SPECIALS)
  {
    if s != [] {
      var h, t := [s[0]], s[1..];
      assert h + t == s;
      ReplaceConcat(h, t, '\\', "\\\\");
      var h1, t1 := Replace(h, '\\', "\\\\"), Replace(t, '\\', "\\\\");
      ReplaceConcat(h1, t1, ',', "\\,");
      var h2, t2 := Replace(h1, ',', "\\,"), Replace(t1, ',', "\\,");
      ReplaceConcat(h2, t2, ' ', "\\ ");
      ReplaceConcat(Replace(h2, ' ', "\\ "), Replace(t2, ' ', "\\ "), '=', "\\=");
      TagIsOnePass(t);
      TagChar(s[0]);
      SlashedOne(s[0], TAG_SPECIALS);
    }
  }

  lemma TagChar(c: char)
    ensures EscapeTag([c]) == Slashed([c], TAG_SPECIALS)
  {
    MeasurementChar(c);
    assert EscapeTag([c]) == Replace(EscapeMeasurement([c]), '=', "\\=");
    SlashedOne(c, MEASUREMENT_SPECIALS);
    SlashedOne(c, TAG_SPECIALS);
    ReplaceOne(c, '=', "\\=");
    if c in MEASUREMENT_SPECIALS {
      ReplaceMisses(['\\', c], '=', "\\=");
    }
  }

  /** Takes away one backslash in front of every special character. */
  function Unslashed(s: string, specials: set<char>): string {
    if s == [] then []
    else if s[0] == '\\' && |s| > 1 && s[1] in specials then [s[1]] + Unslashed(s[2..], specials)
    else [s[0]] + Unslashed(s[1..], specials)
  }

  lemma {:induction false} UnslashedSlashed(s: string, specials: set<char>)
    requires '\\' in specials
    ensures Unslashed(Slashed(s, specials), specials) == s
  {
    if s != [] {
      var head, tail := if s[0] in specials then ['\\', s[0]] else [s[0]], Slashed(s[1..], specials);
      UnslashedSlashed(s[1..], specials);
      Rest(head, tail);
      assert (head + tail)[0] == head[0] && (|head| > 1 ==> (head + tail)[1] == head[1]);
      assert [s[0]] + s[1..] == s;
    }
  }

  /** Every escape can be undone, so no two texts are escaped alike. */
  lemma EscapesUndone(s: string)
    ensures Unslashed(EscapeMeasurement(s), MEASUREMENT_SPECIALS) == s
    ensures Unslashed(EscapeTag(s), TAG_SPECIALS) == s
    ensures Unslashed(EscapeFieldString(s), STRING_SPECIALS) == s
  {
    MeasurementIsOnePass(s);
    TagIsOnePass(s);
    StringIsOnePass(s);
    UnslashedSlashed(s, MEASUREMENT_SPECIALS);
    UnslashedSlashed(s, TAG_SPECIALS);
    UnslashedSlashed(s, STRING_SPECIALS);
  }

  lemma StringChar(c: char)
    ensures EscapeFieldString([c]) == Slashed([c], STRING_SPECIALS)
  {
    SlashedOne(c, STRING_SPECIALS);
    ReplaceOne(c, '\\', "\\\\");
    ReplaceOne(c, '"', "\\\"");
    ReplaceMisses("\\\\", '"', "\\\"");
  }

  /** The string escape is one simultaneous substitution. */
  lemma {:induction false} StringIsOnePass(s: string)
    ensures EscapeFieldString(s) == Slashed(s, STRING_SPECIALS)
  {
    if s != [] {
      var h, t := [s[0]], s[1..];
      assert h + t == s;
      ReplaceConcat(h, t, '\\', "\\\\");
      ReplaceConcat(Replace(h, '\\', "\\\\"), Replace(t, '\\', "\\\\"), '"', "\\\"");
      StringIsOnePass(t);
      StringChar(s[0]);
      SlashedOne(s[0], STRING_SPECIALS);
    }
  }

  lemma {:induction false} EntitiesConcat(s: string)
    requires s != []
    ensures HtmlEscape(s) == HtmlEscape([s[0]]) + HtmlEscape(s[1..])
  {
    var h, t := [s[0]], s[1..];
    assert h + t == s;
    ReplaceConcat(h, t, '&', "&amp;");
    var h1, t1 := Replace(h, '&', "&amp;"), Replace(t, '&', "&amp;");
    ReplaceConcat(h1, t1, '<', "&lt;");
    var h2, t2 := Replace(h1, '<', "&lt;"), Replace(t1, '<', "&lt;");
    ReplaceConcat(h2, t2, '>', "&gt;");
    var h3, t3 := Replace(h2, '>', "&gt;"), Replace(t2, '>', "&gt;");
    ReplaceConcat(h3, t3, '"', "&quot;");
    ReplaceConcat(Replace(h3, '"', "&quot;"), Replace(t3, '"', "&quot;"), '\'', "&#39;");
  }

  /** The replacements that come after those of `&` and `<`. */
  lemma LastThreeMiss(e: string)
    requires Free(e, '>') && Free(e, '"') && Free(e, '\'')
    ensures Replace(Replace(Replace(e, '>', "&gt;"), '"', "&quot;"), '\'', "&#39;") == e
  {
    ReplaceMisses(e, '>', "&gt;");
    ReplaceMisses(e, '"', "&quot;");
    ReplaceMisses(e, '\'', "&#39;");
  }

  lemma LastThreeOn(c: char)
    ensures Replace(Replace(Replace([c], '>', "&gt;"), '"', "&quot;"), '\'', "&#39;")
         == if c == '>' then "&gt;" else if c == '"' then "&quot;" else if c == '\'' then "&#39;" else [c]
  {
    ReplaceOne(c, '>', "&gt;");
    ReplaceOne(c, '"', "&quot;");
    ReplaceOne(c, '\'', "&#39;");
    if c == '>' {
      ReplaceMisses("&gt;", '"', "&quot;");
      ReplaceMisses("&gt;", '\'', "&#39;");
    } else if c == '"' {
      ReplaceMisses("&quot;", '\'', "&#39;");
    }
  }

  lemma FirstTwoOn(c: char)
    ensures Replace(Replace([c], '&', "&amp;"), '<', "&lt;")
         == if c == '&' then "&amp;" else if c == '<' then "&lt;" else [c]
  {
    ReplaceOne(c, '&', "&amp;");
    ReplaceOne(c, '<', "&lt;");
    ReplaceMisses("&amp;", '<', "&lt;");
  }

  lemma HtmlChar(c: char)
    ensures HtmlEscape([c]) == Entity(c)
  {
    FirstTwoOn(c);
    LastThreeMiss("&amp;");
    LastThreeMiss("&lt;");
    LastThreeOn(c);
  }

  /** The HTML escape is one simultaneous substitution of entities. */
  lemma {:induction false} HtmlIsOnePass(s: string)
    ensures HtmlEscape(s) == Entities(s)
  {
    if s != [] {
      EntitiesConcat(s);
      HtmlChar(s[0]);
      HtmlIsOnePass(s[1..]);
    }
  }

  /** The entity a text starts with, and its length. */
  function EntityAt(s: string): Option<(char, nat)> {
    if "&amp;" <= s then Some(('&', 5)) else if "&lt;" <= s then Some(('<', 4))
    else if "&gt;" <= s then Some(('>', 4)) else if "&quot;" <= s then Some(('"', 6))
    else if "&#39;" <= s then Some(('\'', 5)) else None
  }

  lemma EntityFits(s: string)
    ensures EntityAt(s).Some? ==> 0 < EntityAt(s).value.1 <= |s|
  {
  }

  /** Reads the five entities back; any other character stands for itself. */
  function Unentity(s: string): string
    decreases |s|
  {
    if s == [] then []
    else
      EntityFits(s);
      match EntityAt(s)
      case Some((c, n)) => [c] + Unentity(s[n..])
      case None => [s[0]] + Unentity(s[1..])
  }

  lemma EntityFound(c: char, t: string)
    ensures EntityAt(Entity(c) + t) == if |Entity(c)| > 1 then Some((c, |Entity(c)|)) else None
  {
    var e := Entity(c);
    var s := e + t;
    assert e <= s && s[0] == e[0];
    if |e| > 1 {
      assert s[1] == e[1] && s[2] == e[2];
    }
  }

  lemma UnentityOne(c: char, t: string)
    ensures Unentity(Entity(c) + t) == [c] + Unentity(t)
  {
    EntityFound(c, t);
    Rest(Entity(c), t);
  }

  lemma {:induction false} UnentityEntities(s: string)
    ensures Unentity(Entities(s)) == s
  {
    if s != [] {
      UnentityEntities(s[1..]);
      UnentityOne(s[0], Entities(s[1..]));
      assert [s[0]] + s[1..] == s;
    }
  }

  /** Escaped text read back as entities is the original text, so no two texts render alike. */
  lemma HtmlRoundTrip(s: string)
    ensures Unentity(HtmlEscape(s)) == s
  {
    HtmlIsOnePass(s);
    UnentityEntities(s);
  }
}

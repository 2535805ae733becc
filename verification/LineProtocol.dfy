/** The Influx writer's line-protocol printer, and a reader of that format that it is proved against. */
module LineProtocol {
  import opened Wrappers
  import opened Sequences
  import opened Text
  import opened Escapes

  type Digits = s: string | AllDigits(s) witness []

  /** A 64-bit float by the decimal text it is displayed as: never an exponent; NaN and infinities apart. */
  datatype Float = Finite(negative: bool, whole: nat, fraction: Digits) | NonFinite

  datatype Field = Number(value: Float) | Bool(flag: bool) | Text(text: string)

  /** The tag and field maps in their iteration order. */
  datatype DataPoint = DataPoint(measurement: string, tags: seq<(string, string)>, fields: seq<(string, Field)>,
                                 observedMs: nat)

  // ---- The printer ----

  function Display(f: Float): string
    requires f.Finite?
  {
    (if f.negative then "-" else "") + Magnitude(f.whole, f.fraction)
  }

  function Magnitude(whole: nat, fraction: Digits): string {
    Decimal(whole) + Fraction(fraction)
  }

  function Fraction(fraction: Digits): string {
    if fraction == [] then "" else "." + fraction
  }

  predicate Printable(f: Field) {
    f.Number? ==> f.value.Finite?
  }

  function Rendered(f: Field): string
    requires Printable(f)
  {
    match f
    case Number(v) => Display(v)
    case Bool(b) => if b then "true" else "false"
    case Text(v) => "\"" + EscapeFieldString(v) + "\""
  }

  function TagText(tag: (string, string)): string {
    "," + EscapeTag(tag.0) + "=" + EscapeTag(tag.1)
  }

  function PrintTags(tags: seq<(string, string)>): string {
    if tags == [] then [] else TagText(tags[0]) + PrintTags(tags[1..])
  }

  function PrintableFields(fields: seq<(string, Field)>): (r: seq<(string, Field)>)
    ensures forall i :: 0 <= i < |r| ==> Printable(r[i].1)
  {
    if fields == [] then []
    else (if Printable(fields[0].1) then [fields[0]] else []) + PrintableFields(fields[1..])
  }

  function Item(f: (string, Field)): string
    requires Printable(f.1)
  {
    EscapeTag(f.0) + "=" + Rendered(f.1)
  }

  function Items(fields: seq<(string, Field)>): seq<string>
    requires forall i :: 0 <= i < |fields| ==> Printable(fields[i].1)
  {
    seq(|fields|, i requires 0 <= i < |fields| => Item(fields[i]))
  }

  /** The point that can be read back: without its unprintable fields. */
  function Kept(p: DataPoint): DataPoint {
    p.(fields := PrintableFields(p.fields))
  }

  function Line(p: DataPoint): string
    requires forall i :: 0 <= i < |p.fields| ==> Printable(p.fields[i].1)
  {
    EscapeMeasurement(p.measurement) + PrintTags(p.tags) + " " + Join(Items(p.fields), ',') + " "
    + Decimal(p.observedMs)
  }

  lemma {:induction false} PrintTagsAppend(tags: seq<(string, string)>, t: (string, string))
    ensures PrintTags(tags + [t]) == PrintTags(tags) + TagText(t)
  {
    if tags == [] {
      assert [t][1..] == [];
    } else {
      HeadAndTail(tags, [t]);
      PrintTagsAppend(tags[1..], t);
      Assoc(TagText(tags[0]), PrintTags(tags[1..]), TagText(t));
    }
  }

  lemma {:induction false} PrintableFieldsAppend(fields: seq<(string, Field)>, f: (string, Field))
    ensures PrintableFields(fields + [f]) == PrintableFields(fields) + if Printable(f.1) then [f] else []
  {
    if fields == [] {
      assert [f][1..] == [];
    } else {
      assert (fields + [f])[1..] == fields[1..] + [f];
      PrintableFieldsAppend(fields[1..], f);
    }
  }

  lemma ItemsAppend(fields: seq<(string, Field)>, f: (string, Field))
    requires Printable(f.1) && forall i :: 0 <= i < |fields| ==> Printable(fields[i].1)
    ensures Items(fields + [f]) == Items(fields) + [Item(f)]
  {
  }

  lemma Pushed(text: string, a: string, b: string, c: string, d: string)
    ensures text + a + b + c + d == text + (a + b + c + d)
  {
  }

  // ---- The reader ----

  datatype Token = Token(text: string, rest: string)

  /**
   * Reads up to an unescaped stop character. A backslash before a special character stands for that
   * character, any other backslash for itself; a line may not end inside a token.
   */
  function ReadToken(s: string, specials: set<char>, stops: set<char>): Option<Token> {
    if s == [] || s[0] in stops then Some(Token([], s))
    else if s[0] == '\n' then None
    else if s[0] == '\\' && |s| > 1 && s[1] in specials then
      var t :- ReadToken(s[2..], specials, stops);
      Some(Token([s[1]] + t.text, t.rest))
    else
      var t :- ReadToken(s[1..], specials, stops);
      Some(Token([s[0]] + t.text, t.rest))
  }

  /** Reads a string after its opening quote, up to its closing one; line ends are allowed inside. */
  function ReadQuoted(s: string): Option<Token> {
    if s == [] then None
    else if s[0] == '"' then Some(Token([], s[1..]))
    else if s[0] == '\\' && |s| > 1 && s[1] in STRING_SPECIALS then
      var t :- ReadQuoted(s[2..]);
      Some(Token([s[1]] + t.text, t.rest))
    else
      var t :- ReadQuoted(s[1..]);
      Some(Token([s[0]] + t.text, t.rest))
  }

  function ReadChar(s: string, c: char): Option<string> {
    if s != [] && s[0] == c then Some(s[1..]) else None
  }

  function ReadDigits(s: string): Option<Token> {
    var n := DigitRun(s);
    if n == 0 then None else Some(Token(s[..n], s[n..]))
  }

  datatype Unsigned = Unsigned(whole: nat, fraction: Digits, rest: string)

  /** Digits, and after a point more digits. */
  function ReadUnsigned(s: string): Option<Unsigned> {
    var whole :- ReadDigits(s);
    assert AllDigits(whole.text);
    if whole.rest != [] && whole.rest[0] == '.' then
      var fraction :- ReadDigits(whole.rest[1..]);
      Some(Unsigned(ValueOf(whole.text), fraction.text, fraction.rest))
    else Some(Unsigned(ValueOf(whole.text), [], whole.rest))
  }

  function ReadNumber(s: string): Option<(Float, string)> {
    var negative := s != [] && s[0] == '-';
    var u :- ReadUnsigned(if negative then s[1..] else s);
    Some((Finite(negative, u.whole, u.fraction), u.rest))
  }

  function ReadField(s: string): Option<(Field, string)> {
    if s != [] && s[0] == '"' then
      var t :- ReadQuoted(s[1..]);
      Some((Text(t.text), t.rest))
    else if "true" <= s then Some((Bool(true), s[4..]))
    else if "false" <= s then Some((Bool(false), s[5..]))
    else
      var n :- ReadNumber(s);
      Some((Number(n.0), n.1))
  }

  lemma {:induction false} TokenShrinks(s: string, specials: set<char>, stops: set<char>)
    ensures ReadToken(s, specials, stops).Some? ==> |ReadToken(s, specials, stops).value.rest| <= |s|
  {
    if s == [] || s[0] in stops || s[0] == '\n' {
    } else if s[0] == '\\' && |s| > 1 && s[1] in specials {
      TokenShrinks(s[2..], specials, stops);
    } else {
      TokenShrinks(s[1..], specials, stops);
    }
  }

  lemma {:induction false} QuotedShrinks(s: string)
    ensures ReadQuoted(s).Some? ==> |ReadQuoted(s).value.rest| < |s|
  {
    if s == [] || s[0] == '"' {
    } else if s[0] == '\\' && |s| > 1 && s[1] in STRING_SPECIALS {
      QuotedShrinks(s[2..]);
    } else {
      QuotedShrinks(s[1..]);
    }
  }

  lemma FieldShrinks(s: string)
    ensures ReadField(s).Some? ==> |ReadField(s).value.1| < |s|
  {
    if s != [] && s[0] == '"' {
      QuotedShrinks(s[1..]);
    }
  }

  /** A tag or field key and the equals sign after it. */
  function ReadKey(s: string): (r: Option<Token>)
    ensures r.Some? ==> |r.value.rest| < |s|
  {
    var key :- ReadToken(s, TAG_SPECIALS, TAG_SPECIALS - {'\\'});
    TokenShrinks(s, TAG_SPECIALS, TAG_SPECIALS - {'\\'});
    var rest :- ReadChar(key.rest, '=');
    Some(Token(key.text, rest))
  }

  /** Tags, each announced by a comma. */
  function ReadTags(s: string): (r: Option<(seq<(string, string)>, string)>)
    ensures r.Some? ==> |r.value.1| <= |s|
    decreases |s|
  {
    if s == [] || s[0] != ',' then Some(([], s))
    else
      var key :- ReadKey(s[1..]);
      var value :- ReadToken(key.rest, TAG_SPECIALS, TAG_SPECIALS - {'\\'});
      TokenShrinks(key.rest, TAG_SPECIALS, TAG_SPECIALS - {'\\'});
      var more :- ReadTags(value.rest);
      Some(([(key.text, value.text)] + more.0, more.1))
  }

  /** One or more fields separated by commas. */
  function ReadFields(s: string): (r: Option<(seq<(string, Field)>, string)>)
    ensures r.Some? ==> |r.value.1| < |s|
    decreases |s|
  {
    var key :- ReadKey(s);
    var value :- ReadField(key.rest);
    FieldShrinks(key.rest);
    if value.1 != [] && value.1[0] == ',' then
      var more :- ReadFields(value.1[1..]);
      Some(([(key.text, value.0)] + more.0, more.1))
    else Some(([(key.text, value.0)], value.1))
  }

  predicate LineEnd(s: string) { s == [] || s[0] == '\n' }

  /** One point, up to the end of its line. */
  function ReadPoint(s: string): (r: Option<(DataPoint, string)>)
    ensures r.Some? ==> |r.value.1| < |s|
  {
    var measurement :- ReadToken(s, MEASUREMENT_SPECIALS, MEASUREMENT_SPECIALS - {'\\'});
    TokenShrinks(s, MEASUREMENT_SPECIALS, MEASUREMENT_SPECIALS - {'\\'});
    var tags :- ReadTags(measurement.rest);
    var afterTags :- ReadChar(tags.1, ' ');
    var fields :- ReadFields(afterTags);
    var afterFields :- ReadChar(fields.1, ' ');
    var stamp :- ReadDigits(afterFields);
    assert AllDigits(stamp.text);
    if LineEnd(stamp.rest) then Some((DataPoint(measurement.text, tags.0, fields.0, ValueOf(stamp.text)), stamp.rest))
    else None
  }

  /** A body of lines. */
  function ReadBatch(s: string): Option<seq<DataPoint>>
    decreases |s|
  {
    if s == [] then Some([])
    else
      var first :- ReadPoint(s);
      if first.1 == [] then Some([first.0])
      else
        var more :- ReadBatch(first.1[1..]);
        Some([first.0] + more)
  }

  // ---- Round trips ----

  lemma {:induction false} TokenRoundTrip(v: string, rest: string, specials: set<char>)
    requires '\\' in specials && '\n' !in specials
    requires rest != [] && rest[0] in specials - {'\\'}
    ensures ReadToken(Slashed(v, specials) + rest, specials, specials - {'\\'})
         == if Free(v, '\n') then Some(Token(v, rest)) else None
  {
    if v != [] {
      var tail := Slashed(v[1..], specials) + rest;
      TokenRoundTrip(v[1..], rest, specials);
      assert Slashed(v, specials) + rest == (if v[0] in specials then ['\\', v[0]] else [v[0]]) + tail;
      assert [v[0]] + v[1..] == v;
      assert Free(v, '\n') <==> v[0] != '\n' && Free(v[1..], '\n') by {
        assert forall i :: 1 <= i < |v| ==> v[i] == v[1..][i - 1];
      }
      if v[0] in specials {
        assert (['\\', v[0]] + tail)[2..] == tail;
      } else {
        assert ([v[0]] + tail)[1..] == tail;
      }
    } else {
      assert Slashed(v, specials) + rest == rest;
    }
  }

  /** Any text survives quoting, also one that ends in a backslash or contains line ends. */
  lemma {:induction false} QuotedRoundTrip(v: string, rest: string)
    ensures ReadQuoted(Slashed(v, STRING_SPECIALS) + "\"" + rest) == Some(Token(v, rest))
  {
    if v != [] {
      var tail := Slashed(v[1..], STRING_SPECIALS) + "\"" + rest;
      QuotedRoundTrip(v[1..], rest);
      var head := if v[0] in STRING_SPECIALS then ['\\', v[0]] else [v[0]];
      assert Slashed(v, STRING_SPECIALS) + "\"" + rest == head + tail by {
        Assoc(head, Slashed(v[1..], STRING_SPECIALS), "\"" + rest);
        Assoc(Slashed(v[1..], STRING_SPECIALS), "\"", rest);
      }
      Rest(head, tail);
      assert [v[0]] + v[1..] == v;
    } else {
      assert ("\"" + rest)[1..] == rest;
      assert Slashed(v, STRING_SPECIALS) + "\"" + rest == "\"" + rest;
    }
  }

  predicate Separator(s: string) {
    s != [] && (s[0] == ',' || s[0] == ' ')
  }

  lemma DigitsRoundTrip(d: string, rest: string)
    requires d != [] && AllDigits(d) && (rest != [] ==> !IsDigit(rest[0]))
    ensures ReadDigits(d + rest) == Some(Token(d, rest))
  {
    DigitRunOf(d, rest);
  }

  lemma WholeRoundTrip(whole: string, rest: string)
    requires whole != [] && AllDigits(whole) && Separator(rest)
    ensures ReadUnsigned(whole + rest) == Some(Unsigned(ValueOf(whole), [], rest))
  {
    DigitsRoundTrip(whole, rest);
  }

  lemma FractionRoundTrip(whole: string, fraction: Digits, rest: string)
    requires whole != [] && AllDigits(whole) && fraction != [] && Separator(rest)
    ensures ReadUnsigned(whole + ("." + (fraction + rest))) == Some(Unsigned(ValueOf(whole), fraction, rest))
  {
    var tail := "." + (fraction + rest);
    assert tail[0] == '.' && tail[1..] == fraction + rest;
    DigitsRoundTrip(whole, tail);
    DigitsRoundTrip(fraction, rest);
  }

  lemma DisplayShape(f: Float, rest: string)
    requires f.Finite?
    ensures Display(f) + rest == if f.negative then "-" + (Magnitude(f.whole, f.fraction) + rest)
                                 else Magnitude(f.whole, f.fraction) + rest
  {
  }

  lemma MagnitudeRoundTrip(whole: nat, fraction: Digits, rest: string)
    requires Separator(rest)
    ensures ReadUnsigned(Magnitude(whole, fraction) + rest) == Some(Unsigned(whole, fraction, rest))
    ensures IsDigit((Magnitude(whole, fraction) + rest)[0])
  {
    ValueOfDecimal(whole);
    Assoc(Decimal(whole), Fraction(fraction), rest);
    HeadAndTail(Decimal(whole), Fraction(fraction) + rest);
    if fraction == [] {
      assert Fraction(fraction) + rest == rest;
      WholeRoundTrip(Decimal(whole), rest);
    } else {
      Assoc(".", fraction, rest);
      FractionRoundTrip(Decimal(whole), fraction, rest);
    }
  }

  lemma NumberRoundTrip(f: Float, rest: string)
    requires f.Finite? && Separator(rest)
    ensures ReadNumber(Display(f) + rest) == Some((f, rest))
    ensures (Display(f) + rest)[0] == '-' || IsDigit((Display(f) + rest)[0])
  {
    var unsigned := Magnitude(f.whole, f.fraction) + rest;
    MagnitudeRoundTrip(f.whole, f.fraction, rest);
    DisplayShape(f, rest);
    assert ("-" + unsigned)[1..] == unsigned;
  }

  lemma TextFieldRoundTrip(v: string, rest: string)
    ensures ReadField(Rendered(Text(v)) + rest) == Some((Text(v), rest))
  {
    var s := Rendered(Text(v)) + rest;
    StringIsOnePass(v);
    QuotedRoundTrip(v, rest);
    assert s[0] == '"';
    assert s[1..] == Slashed(v, STRING_SPECIALS) + "\"" + rest;
  }

  lemma NumberFieldRoundTrip(v: Float, rest: string)
    requires v.Finite? && Separator(rest)
    ensures ReadField(Display(v) + rest) == Some((Number(v), rest))
  {
    NumberRoundTrip(v, rest);
    StartsLikeNumber(Display(v) + rest);
  }

  lemma StartsLikeNumber(s: string)
    requires s != [] && (s[0] == '-' || IsDigit(s[0]))
    ensures s[0] != '"' && !("true" <= s) && !("false" <= s)
  {
  }

  lemma BoolFieldRoundTrip(b: bool, rest: string)
    ensures ReadField(Rendered(Bool(b)) + rest) == Some((Bool(b), rest))
  {
    var word := Rendered(Bool(b));
    assert (word + rest)[..|word|] == word && (word + rest)[|word|..] == rest;
    assert (word + rest)[0] == word[0];
  }

  lemma FieldRoundTrip(f: Field, rest: string)
    requires f != Number(NonFinite) && Separator(rest)
    ensures Printable(f) && ReadField(Rendered(f) + rest) == Some((f, rest))
  {
    match f
    case Number(v) => NumberFieldRoundTrip(v, rest);
    case Bool(b) => BoolFieldRoundTrip(b, rest);
    case Text(v) => TextFieldRoundTrip(v, rest);
  }

  predicate TagsFit(tags: seq<(string, string)>) {
    forall i :: 0 <= i < |tags| ==> Free(tags[i].0, '\n') && Free(tags[i].1, '\n')
  }

  predicate FieldsFit(fields: seq<(string, Field)>) {
    forall i :: 0 <= i < |fields| ==> Free(fields[i].0, '\n')
  }

  /** No line end in the measurement, a tag or a field key. */
  predicate FitsOneLine(p: DataPoint) {
    Free(p.measurement, '\n') && TagsFit(p.tags) && FieldsFit(p.fields)
  }

  lemma KeyRoundTrip(key: string, rest: string)
    ensures ReadKey(EscapeTag(key) + ("=" + rest)) == if Free(key, '\n') then Some(Token(key, rest)) else None
  {
    TagIsOnePass(key);
    TokenRoundTrip(key, "=" + rest, TAG_SPECIALS);
    assert ("=" + rest)[1..] == rest;
  }

  lemma TagsShape(tags: seq<(string, string)>, rest: string)
    requires tags != []
    ensures PrintTags(tags) + rest
         == "," + (EscapeTag(tags[0].0) + ("=" + (EscapeTag(tags[0].1) + (PrintTags(tags[1..]) + rest))))
  {
  }

  lemma TagsFitTail(tags: seq<(string, string)>)
    requires tags != []
    ensures TagsFit(tags) <==> Free(tags[0].0, '\n') && Free(tags[0].1, '\n') && TagsFit(tags[1..])
  {
    assert forall i :: 1 <= i < |tags| ==> tags[i] == tags[1..][i - 1];
  }

  /** What reading one more tag gives, in front of anything that ends a tag value. */
  lemma OneMoreTag(key: string, value: string, tail: string)
    requires Separator(tail)
    ensures ReadTags("," + (EscapeTag(key) + ("=" + (EscapeTag(value) + tail))))
         == if !Free(key, '\n') || !Free(value, '\n') || ReadTags(tail).None? then None
            else Some(([(key, value)] + ReadTags(tail).value.0, ReadTags(tail).value.1))
  {
    var afterKey := EscapeTag(value) + tail;
    var s := EscapeTag(key) + ("=" + afterKey);
    assert ("," + s)[1..] == s;
    KeyRoundTrip(key, afterKey);
    TagIsOnePass(value);
    TokenRoundTrip(value, tail, TAG_SPECIALS);
  }

  lemma {:induction false} TagsRoundTrip(tags: seq<(string, string)>, rest: string)
    requires rest != [] && rest[0] == ' '
    ensures ReadTags(PrintTags(tags) + rest) == if TagsFit(tags) then Some((tags, rest)) else None
  {
    if tags == [] {
      assert PrintTags(tags) + rest == rest;
    } else {
      var tail := PrintTags(tags[1..]) + rest;
      TagsRoundTrip(tags[1..], rest);
      TagsShape(tags, rest);
      OneMoreTag(tags[0].0, tags[0].1, tail);
      TagsFitTail(tags);
      assert [(tags[0].0, tags[0].1)] + tags[1..] == tags;
    }
  }

  lemma JoinHead(parts: seq<string>, sep: char)
    requires parts != []
    ensures Join(parts, sep) == if |parts| == 1 then parts[0] else parts[0] + [sep] + Join(parts[1..], sep)
  {
  }

  lemma ItemsHead(fields: seq<(string, Field)>)
    requires fields != []
    requires forall i :: 0 <= i < |fields| ==> Printable(fields[i].1)
    ensures |Items(fields)| == |fields| && Items(fields)[0] == Item(fields[0])
    ensures Items(fields)[1..] == Items(fields[1..])
  {
    forall i | 0 <= i < |fields| - 1
      ensures Items(fields)[1..][i] == Items(fields[1..])[i]
    {
      assert fields[1..][i] == fields[i + 1];
    }
  }

  lemma ItemShape(key: string, value: string, sep: char, more: string, rest: string)
    ensures key + "=" + value + rest == key + ("=" + (value + rest))
    ensures key + "=" + value + [sep] + more + rest == key + ("=" + (value + ([sep] + (more + rest))))
  {
  }

  lemma FieldsShape(fields: seq<(string, Field)>, rest: string)
    requires fields != []
    requires forall i :: 0 <= i < |fields| ==> Printable(fields[i].1)
    ensures Join(Items(fields), ',') + rest
         == EscapeTag(fields[0].0) + ("=" + (Rendered(fields[0].1)
            + (if |fields| == 1 then rest else "," + (Join(Items(fields[1..]), ',') + rest))))
  {
    ItemsHead(fields);
    JoinHead(Items(fields), ',');
    ItemShape(EscapeTag(fields[0].0), Rendered(fields[0].1), ',', Join(Items(fields[1..]), ','), rest);
  }

  lemma FieldsFitTail(fields: seq<(string, Field)>)
    requires fields != []
    ensures FieldsFit(fields) <==> Free(fields[0].0, '\n') && FieldsFit(fields[1..])
  {
    assert forall i :: 1 <= i < |fields| ==> fields[i] == fields[1..][i - 1];
  }

  lemma {:induction false} FieldsRoundTrip(fields: seq<(string, Field)>, rest: string)
    requires fields != [] && rest != [] && rest[0] == ' '
    requires forall i :: 0 <= i < |fields| ==> Printable(fields[i].1)
    ensures ReadFields(Join(Items(fields), ',') + rest) == if FieldsFit(fields) then Some((fields, rest)) else None
  {
    var more := Join(Items(fields[1..]), ',') + rest;
    var tail := if |fields| == 1 then rest else "," + more;
    FieldsShape(fields, rest);
    KeyRoundTrip(fields[0].0, Rendered(fields[0].1) + tail);
    FieldRoundTrip(fields[0].1, tail);
    FieldsFitTail(fields);
    assert [(fields[0].0, fields[0].1)] + fields[1..] == fields;
    if |fields| > 1 {
      assert tail[1..] == more;
      FieldsRoundTrip(fields[1..], rest);
    } else {
      assert fields == [(fields[0].0, fields[0].1)];
    }
  }

  lemma SixParts(a: string, b: string, c: string, d: string, e: string, f: string, rest: string)
    ensures a + b + c + d + e + f + rest == a + (b + (c + (d + (e + (f + rest)))))
  {
    Assoc(a + b + c + d + e, f, rest);
    Assoc(a + b + c + d, e, f + rest);
    Assoc(a + b + c, d, e + (f + rest));
    Assoc(a + b, c, d + (e + (f + rest)));
    Assoc(a, b, c + (d + (e + (f + rest))));
  }

  lemma LineShape(p: DataPoint, rest: string)
    requires forall i :: 0 <= i < |p.fields| ==> Printable(p.fields[i].1)
    ensures Line(p) + rest == EscapeMeasurement(p.measurement) + (PrintTags(p.tags) + (" "
                              + (Join(Items(p.fields), ',') + (" " + (Decimal(p.observedMs) + rest)))))
  {
    SixParts(EscapeMeasurement(p.measurement), PrintTags(p.tags), " ", Join(Items(p.fields), ','), " ",
             Decimal(p.observedMs), rest);
  }

  /** Without exactly the fields that hold a NaN or an infinity, the others in order. */
  function FiniteFields(fields: seq<(string, Field)>): seq<(string, Field)> {
    if fields == [] then []
    else if fields[0].1 == Number(NonFinite) then FiniteFields(fields[1..])
    else [fields[0]] + FiniteFields(fields[1..])
  }

  function FinitePart(p: DataPoint): DataPoint {
    p.(fields := FiniteFields(p.fields))
  }

  lemma {:induction false} FiniteFieldsNone(fields: seq<(string, Field)>)
    ensures FiniteFields(fields) == [] <==> forall i :: 0 <= i < |fields| ==> fields[i].1 == Number(NonFinite)
  {
    if fields != [] {
      FiniteFieldsNone(fields[1..]);
      assert forall i :: 1 <= i < |fields| ==> fields[i] == fields[1..][i - 1];
    }
  }

  lemma {:induction false} KeptIsFinite(fields: seq<(string, Field)>)
    ensures PrintableFields(fields) == FiniteFields(fields)
  {
    if fields != [] {
      KeptIsFinite(fields[1..]);
    }
  }

  lemma KeptRoundTrip(p: DataPoint, rest: string)
    requires Kept(p).fields != [] && LineEnd(rest)
    ensures ReadPoint(Line(Kept(p)) + rest) == if FitsOneLine(Kept(p)) then Some((Kept(p), rest)) else None
  {
    var q := Kept(p);
    var stamp := Decimal(q.observedMs) + rest;
    var fields := Join(Items(q.fields), ',') + (" " + stamp);
    var tags := PrintTags(q.tags) + (" " + fields);
    LineShape(q, rest);
    MeasurementIsOnePass(q.measurement);
    assert tags != [] && (tags[0] == ',' || tags[0] == ' ');
    TokenRoundTrip(q.measurement, tags, MEASUREMENT_SPECIALS);
    TagsRoundTrip(q.tags, " " + fields);
    assert (" " + fields)[1..] == fields;
    FieldsRoundTrip(q.fields, " " + stamp);
    assert (" " + stamp)[1..] == stamp;
    StampRoundTrip(q.observedMs, rest);
  }

  /**
   * A printed point followed by a line end reads back as exactly its measurement, tags, finite
   * fields and timestamp, when it fits one line; when it does not, the reader rejects it.
   */
  lemma PointRoundTrip(p: DataPoint, rest: string)
    requires FiniteFields(p.fields) != [] && LineEnd(rest)
    ensures ReadPoint(Line(Kept(p)) + rest)
         == if FitsOneLine(FinitePart(p)) then Some((FinitePart(p), rest)) else None
  {
    KeptIsFinite(p.fields);
    KeptRoundTrip(p, rest);
  }

  function Printout(p: DataPoint): Option<string> {
    if Kept(p).fields == [] then None else Some(Line(Kept(p)))
  }

  /**
   * Nothing is printed exactly when no field is finite; otherwise the line alone reads back as the
   * point without exactly its non-finite fields, when it fits one line.
   */
  lemma PrintoutReadsBack(p: DataPoint)
    ensures Printout(p).None? <==> forall i :: 0 <= i < |p.fields| ==> p.fields[i].1 == Number(NonFinite)
    ensures Printout(p).Some? ==>
      ReadPoint(Printout(p).value) == if FitsOneLine(FinitePart(p)) then Some((FinitePart(p), "")) else None
  {
    FiniteFieldsNone(p.fields);
    KeptIsFinite(p.fields);
    if Kept(p).fields != [] {
      PointRoundTrip(p, "");
      assert Line(Kept(p)) + "" == Line(Kept(p));
    }
  }

  method ToLineProtocol(point: DataPoint) returns (line: Option<string>)
    ensures line == Printout(point)
  {
    if point.fields == [] {
      return None;
    }
    var measurement := EscapeMeasurement(point.measurement);
    var tags := "";
    for i := 0 to |point.tags|
      invariant tags == PrintTags(point.tags[..i])
    {
      var (key, value) := point.tags[i];
      tags := tags + ",";
      tags := tags + EscapeTag(key);
      tags := tags + "=";
      tags := tags + EscapeTag(value);
      PrintTagsAppend(point.tags[..i], point.tags[i]);
      Pushed(PrintTags(point.tags[..i]), ",", EscapeTag(key), "=", EscapeTag(value));
      assert point.tags[..i + 1] == point.tags[..i] + [point.tags[i]];
    }
    var fieldItems: seq<string> := [];
    for i := 0 to |point.fields|
      invariant fieldItems == Items(PrintableFields(point.fields[..i]))
    {
      PrintableFieldsAppend(point.fields[..i], point.fields[i]);
      assert point.fields[..i + 1] == point.fields[..i] + [point.fields[i]];
      var (key, value) := point.fields[i];
      var rendered: string;
      match value {
        case Number(v) =>
          if v.NonFinite? {
            continue;
          }
          rendered := Display(v);
        case Bool(b) => rendered := if b then "true" else "false";
        case Text(v) => rendered := "\"" + EscapeFieldString(v) + "\"";
      }
      ItemsAppend(PrintableFields(point.fields[..i]), point.fields[i]);
      fieldItems := fieldItems + [EscapeTag(key) + "=" + rendered];
    }
    assert point.tags[..|point.tags|] == point.tags;
    assert point.fields[..|point.fields|] == point.fields;
    if fieldItems == [] {
      return None;
    }
    return Some(measurement + tags + " " + Join(fieldItems, ',') + " " + Decimal(point.observedMs));
  }

  lemma StampRoundTrip(n: nat, rest: string)
    requires LineEnd(rest)
    ensures ReadDigits(Decimal(n) + rest) == Some(Token(Decimal(n), rest)) && ValueOf(Decimal(n)) == n
  {
    DigitsRoundTrip(Decimal(n), rest);
    ValueOfDecimal(n);
  }

  /** The points of a batch that print at all. */
  function Printed(points: seq<DataPoint>): (r: seq<DataPoint>)
    ensures forall i :: 0 <= i < |r| ==> r[i].fields != [] && Kept(r[i]) == r[i]
  {
    if points == [] then []
    else
      KeptTwice(points[0].fields);
      (if Kept(points[0]).fields == [] then [] else [Kept(points[0])]) + Printed(points[1..])
  }

  lemma {:induction false} KeptTwice(fields: seq<(string, Field)>)
    ensures PrintableFields(PrintableFields(fields)) == PrintableFields(fields)
  {
    if fields != [] {
      KeptTwice(fields[1..]);
      var r := PrintableFields(fields[1..]);
      if Printable(fields[0].1) {
        assert ([fields[0]] + r)[1..] == r;
      } else {
        assert [] + r == r;
      }
    }
  }

  function Lines(points: seq<DataPoint>): seq<string>
    requires forall i :: 0 <= i < |points| ==> Kept(points[i]) == points[i]
  {
    seq(|points|, i requires 0 <= i < |points| => Line(Kept(points[i])))
  }

  lemma {:induction false} PrintedAppend(points: seq<DataPoint>, p: DataPoint)
    ensures Printed(points + [p]) == Printed(points) + if Kept(p).fields == [] then [] else [Kept(p)]
  {
    if points == [] {
      assert [p][1..] == [];
    } else {
      assert (points + [p])[1..] == points[1..] + [p];
      PrintedAppend(points[1..], p);
    }
  }

  lemma LinesAppend(points: seq<DataPoint>, more: seq<DataPoint>)
    requires |more| <= 1
    requires forall i :: 0 <= i < |points| ==> Kept(points[i]) == points[i]
    requires forall i :: 0 <= i < |more| ==> Kept(more[i]) == more[i]
    ensures Lines(points + more) == Lines(points) + if more == [] then [] else [Line(Kept(more[0]))]
  {
    if more == [] {
      assert points + more == points;
    }
  }

  lemma LinesHead(points: seq<DataPoint>)
    requires points != [] && forall i :: 0 <= i < |points| ==> Kept(points[i]) == points[i]
    ensures |Lines(points)| == |points| && Lines(points)[0] == Line(Kept(points[0]))
    ensures Lines(points)[1..] == Lines(points[1..])
  {
    forall i | 0 <= i < |points| - 1
      ensures Lines(points)[1..][i] == Lines(points[1..])[i]
    {
      assert points[1..][i] == points[i + 1];
    }
  }

  lemma LinesShape(points: seq<DataPoint>)
    requires points != [] && forall i :: 0 <= i < |points| ==> Kept(points[i]) == points[i]
    ensures Join(Lines(points), '\n')
         == Line(Kept(points[0])) + if |points| == 1 then [] else "\n" + Join(Lines(points[1..]), '\n')
  {
    LinesHead(points);
    JoinHead(Lines(points), '\n');
  }

  predicate AllFit(points: seq<DataPoint>) {
    forall i :: 0 <= i < |points| ==> FitsOneLine(points[i])
  }

  lemma AllFitTail(points: seq<DataPoint>)
    requires points != []
    ensures AllFit(points) <==> FitsOneLine(points[0]) && AllFit(points[1..])
  {
    assert forall i :: 1 <= i < |points| ==> points[i] == points[1..][i - 1];
  }

  lemma LastLine(p: DataPoint)
    requires p.fields != [] && Kept(p) == p
    ensures ReadBatch(Line(p)) == if FitsOneLine(p) then Some([p]) else None
  {
    KeptRoundTrip(p, []);
    assert Line(p) + [] == Line(p) && Line(p) != [];
  }

  lemma FollowedLine(p: DataPoint, more: string)
    requires p.fields != [] && Kept(p) == p
    ensures ReadBatch(Line(p) + ("\n" + more))
         == if !FitsOneLine(p) || ReadBatch(more).None? then None else Some([p] + ReadBatch(more).value)
  {
    KeptRoundTrip(p, "\n" + more);
    HeadAndTail("\n", more);
    assert ("\n" + more)[1..] == more;
  }

  predicate Readable(points: seq<DataPoint>) {
    forall i :: 0 <= i < |points| ==> points[i].fields != [] && Kept(points[i]) == points[i]
  }

  lemma OneReadsBack(points: seq<DataPoint>)
    requires Readable(points) && |points| == 1
    ensures ReadBatch(Join(Lines(points), '\n')) == if AllFit(points) then Some(points) else None
  {
    LinesHead(points);
    LastLine(points[0]);
    assert points == [points[0]];
  }

  lemma MoreReadBack(points: seq<DataPoint>)
    requires Readable(points) && |points| > 1
    ensures ReadBatch(Join(Lines(points), '\n'))
         == if !FitsOneLine(points[0]) || ReadBatch(Join(Lines(points[1..]), '\n')).None? then None
            else Some([points[0]] + ReadBatch(Join(Lines(points[1..]), '\n')).value)
  {
    LinesShape(points);
    FollowedLine(points[0], Join(Lines(points[1..]), '\n'));
  }

  lemma {:induction false} LinesReadBack(points: seq<DataPoint>)
    requires Readable(points)
    ensures ReadBatch(Join(Lines(points), '\n')) == if AllFit(points) then Some(points) else None
  {
    if |points| == 1 {
      OneReadsBack(points);
    } else if |points| > 1 {
      MoreReadBack(points);
      LinesReadBack(points[1..]);
      AllFitTail(points);
      assert [points[0]] + points[1..] == points;
    }
  }

  /** The points with a finite field, without their other fields, in order. */
  function FinitePoints(points: seq<DataPoint>): seq<DataPoint> {
    if points == [] then []
    else if FiniteFields(points[0].fields) == [] then FinitePoints(points[1..])
    else [FinitePart(points[0])] + FinitePoints(points[1..])
  }

  lemma {:induction false} PrintedIsFinite(points: seq<DataPoint>)
    ensures Printed(points) == FinitePoints(points)
  {
    if points != [] {
      KeptIsFinite(points[0].fields);
      PrintedIsFinite(points[1..]);
    }
  }

  /** A batch reads back as its points with finite fields, in order, exactly when each of those fits one line. */
  lemma BatchRoundTrip(points: seq<DataPoint>)
    ensures ReadBatch(Join(Lines(Printed(points)), '\n'))
         == if AllFit(FinitePoints(points)) then Some(FinitePoints(points)) else None
  {
    PrintedIsFinite(points);
    LinesReadBack(Printed(points));
  }

  /** The request body of one batch; nothing is posted when it is empty. */
  method Body(points: seq<DataPoint>) returns (body: string)
    ensures body == Join(Lines(Printed(points)), '\n')
    ensures ReadBatch(body) == if AllFit(FinitePoints(points)) then Some(FinitePoints(points)) else None
  {
    var lines: seq<string> := [];
    for i := 0 to |points|
      invariant lines == Lines(Printed(points[..i]))
    {
      PrintedAppend(points[..i], points[i]);
      assert points[..i + 1] == points[..i] + [points[i]];
      KeptTwice(points[i].fields);
      LinesAppend(Printed(points[..i]), if Kept(points[i]).fields == [] then [] else [Kept(points[i])]);
      var line := ToLineProtocol(points[i]);
      if line.Some? {
        lines := lines + [line.value];
      }
    }
    assert points[..|points|] == points;
    BatchRoundTrip(points);
    body := Join(lines, '\n');
  }
}

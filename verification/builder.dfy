/** The configuration of one "Run selenese script" build step: parsing the
    window size, constructing the builder, and the values `perform` derives
    from the configuration before handing them to the runner. */
module SeleneseRunnerBuilder {
  import opened Results
  import opened Text
  import opened Integers

  /** A window size as `parseSize` returns it: `(left, right)` is `(width, height)`. */
  datatype Size = Size(width: Int32, height: Int32)

  /** `parseSize` on `null` dereferences the missing split result
      (`NullSize`); every other rejection is an `InvalidAttributesException`
      whose message names the offending input (`BadFormat`). */
  datatype SizeError = NullSize | BadFormat(input: string)

  /** The character that separates width from height. */
  const SizeSeparator: char := 'x'

  /** `parseSize`: the string is split on `'x'` with empty pieces dropped;
      there must be exactly two pieces and both must parse as `int`. */
  function ParseSize(s: JString): (r: Result<Size, SizeError>)
    ensures s.Null? ==> r == Err(NullSize)
    ensures s.Str? ==>
      var fs := Fields(s.chars, SizeSeparator);
      (r.Ok? <==> |fs| == 2 && ParseInt(fs[0]).Some? && ParseInt(fs[1]).Some?)
      && (r.Ok? ==> ParseInt(fs[0]) == Some(r.value.width) && ParseInt(fs[1]) == Some(r.value.height))
      && (r.Err? ==> r.error == BadFormat(s.chars))
  {
    if s.Null? then Err(NullSize)
    else
      var parts := SplitByChar(s.chars, SizeSeparator);
      if |parts| != 2 then Err(BadFormat(s.chars))
      else
        match (ParseInt(parts[0]), ParseInt(parts[1]))
        case (Some(w), Some(h)) => Ok(Size(w, h))
        case _ => Err(BadFormat(s.chars))
  }

  /** Two results of `ParseSize` agree on success and on the size. */
  predicate SameOutcome(r1: Result<Size, SizeError>, r2: Result<Size, SizeError>) {
    r1.Ok? == r2.Ok? && (r1.Ok? ==> r1.value == r2.value)
  }

  /** Rendering a size as `<width>x<height>` and parsing it gives it back. */
  lemma ParseSizeRoundTrip(width: Int32, height: Int32)
    ensures ParseSize(Str(ToString(width) + [SizeSeparator] + ToString(height))) == Ok(Size(width, height))
  {
    var a, b := ToString(width), ToString(height);
    TwoFields(a, b);
    ParseToString(width);
    ParseToString(height);
  }

  /** Two non-empty separator-free strings joined by one separator are its
      two fields. */
  lemma TwoFields(a: string, b: string)
    requires a != [] && b != [] && SizeSeparator !in a && SizeSeparator !in b
    ensures Fields(a + [SizeSeparator] + b, SizeSeparator) == [a, b]
  {
    FieldsConcat(a, SizeSeparator, b);
    PiecesWithoutSeparator(a, SizeSeparator);
    PiecesWithoutSeparator(b, SizeSeparator);
    var none: seq<string> := [];
    assert NonEmpty([a]) == [a] by { assert [a][..0] == none; }
    assert NonEmpty([b]) == [b] by { assert [b][..0] == none; }
  }

  /** The empty string has no fields. */
  lemma NoFields()
    ensures Fields([], SizeSeparator) == []
  {
    var none: seq<string> := [];
    assert [[]][..0] == none;
  }

  /** A separator in front changes neither success nor the size. */
  lemma ParseSizeIgnoresLeadingSeparator(a: string)
    ensures SameOutcome(ParseSize(Str([SizeSeparator] + a)), ParseSize(Str(a)))
  {
    var x := SizeSeparator;
    NoFields();
    FieldsConcat([], x, a);
    assert [] + [x] + a == [x] + a;
    SameFieldsSameOutcome([x] + a, a);
  }

  /** A separator at the end changes neither success nor the size. */
  lemma ParseSizeIgnoresTrailingSeparator(a: string)
    ensures SameOutcome(ParseSize(Str(a + [SizeSeparator])), ParseSize(Str(a)))
  {
    var x := SizeSeparator;
    NoFields();
    FieldsConcat(a, x, []);
    assert a + [x] + [] == a + [x];
    SameFieldsSameOutcome(a + [x], a);
  }

  /** A doubled separator acts as a single one. */
  lemma ParseSizeMergesSeparators(a: string, b: string)
    ensures SameOutcome(ParseSize(Str(a + [SizeSeparator, SizeSeparator] + b)),
                        ParseSize(Str(a + [SizeSeparator] + b)))
  {
    var s, t := a + [SizeSeparator, SizeSeparator] + b, a + [SizeSeparator] + b;
    FieldsMergeSeparators(a, SizeSeparator, b);
    SameFieldsSameOutcome(s, t);
  }

  /** `ParseSize` depends on its input only through the pieces between separators. */
  lemma SameFieldsSameOutcome(s: string, t: string)
    requires Fields(s, SizeSeparator) == Fields(t, SizeSeparator)
    ensures SameOutcome(ParseSize(Str(s)), ParseSize(Str(t)))
  {
  }

  /** Without a separator there cannot be two pieces. */
  lemma ParseSizeNeedsSeparator(s: string)
    requires SizeSeparator !in s
    ensures ParseSize(Str(s)) == Err(BadFormat(s))
  {
    PiecesWithoutSeparator(s, SizeSeparator);
  }

  // The inputs of the unit tests, one lemma each.

  lemma ParseSizeAccepts1024x768()
    ensures ParseSize(Str("1024x768")) == Ok(Size(1024, 768))
  {
    var w, h := ToString(1024), ToString(768);
    assert w == "1024" && h == "768";
    ParseSizeRoundTrip(1024, 768);
    assert w + [SizeSeparator] + h == "1024x768";
  }

  lemma ParseSizeAccepts1x1()
    ensures ParseSize(Str("1x1")) == Ok(Size(1, 1))
  {
    var one := ToString(1);
    assert one == "1";
    ParseSizeRoundTrip(1, 1);
    assert one + [SizeSeparator] + one == "1x1";
  }

  lemma ParseSizeRejects1024x()
    ensures ParseSize(Str("1024x")) == Err(BadFormat("1024x"))
  {
    var w := "1024";
    var s := w + [SizeSeparator];
    assert s == "1024x";
    assert ParseSize(Str(s)).Err? by {
      ParseSizeNeedsSeparator(w);
      ParseSizeIgnoresTrailingSeparator(w);
    }
  }

  lemma ParseSizeRejectsX768()
    ensures ParseSize(Str("x768")) == Err(BadFormat("x768"))
  {
    var h := "768";
    var s := [SizeSeparator] + h;
    assert s == "x768";
    assert ParseSize(Str(s)).Err? by {
      ParseSizeNeedsSeparator(h);
      ParseSizeIgnoresLeadingSeparator(h);
    }
  }

  lemma ParseSizeRejectsX()
    ensures ParseSize(Str("x")) == Err(BadFormat("x"))
  {
    var e := "";
    var s := [SizeSeparator] + e;
    assert s == "x";
    assert ParseSize(Str(s)).Err? by {
      ParseSizeNeedsSeparator(e);
      ParseSizeIgnoresLeadingSeparator(e);
    }
  }

  lemma ParseSizeRejectsAxa()
    ensures ParseSize(Str("axa")) == Err(BadFormat("axa"))
  {
    var a := "a";
    TwoFields(a, a);
    assert a + [SizeSeparator] + a == "axa";
    assert ParseInt(a) == None;
  }

  // ---------------------------------------------------------------------
  // The builder

  /** The fields of a `SeleneseRunnerBuilder`; `width` and `height` are the
      ones the constructor parsed from `size`. Nothing changes them later. */
  datatype Builder = Builder(
    seleneseFile: JString,
    browser: string,
    screenshotAll: bool,
    screenshotOnFail: bool,
    screenshotDir: JString,
    baseUrl: JString,
    junitresult: JString,
    size: JString,
    width: Int32,
    height: Int32,
    capabilities: JString)
  {
    /** The stored window size is the parse of the stored size string. */
    predicate Valid() {
      ParseSize(size) == Ok(Size(width, height))
    }
  }

  /** The constructor: stores its arguments and the parsed window size, or
      fails with the error of `parseSize`. */
  function NewBuilder(seleneseFile: JString, browser: string, screenshotAll: bool,
                      screenshotOnFail: bool, screenshotDir: JString, baseUrl: JString,
                      junitresult: JString, size: JString, capabilities: JString)
    : (r: Result<Builder, SizeError>)
    ensures r.Err? <==> ParseSize(size).Err?
    ensures r.Err? ==> r.error == ParseSize(size).error
    ensures r.Ok? ==> r.value.Valid()
    ensures r.Ok? ==> r.value.width == ParseSize(size).value.width
                      && r.value.height == ParseSize(size).value.height
    ensures r.Ok? ==>
      var b := r.value;
      b.seleneseFile == seleneseFile && b.browser == browser && b.screenshotAll == screenshotAll
      && b.screenshotOnFail == screenshotOnFail && b.screenshotDir == screenshotDir
      && b.baseUrl == baseUrl && b.junitresult == junitresult && b.size == size
      && b.capabilities == capabilities
  {
    match ParseSize(size)
    case Err(e) => Err(e)
    case Ok(sz) =>
      Ok(Builder(seleneseFile, browser, screenshotAll, screenshotOnFail, screenshotDir,
                 baseUrl, junitresult, size, sz.width, sz.height, capabilities))
  }

  /** The configuration of the unit test stores width 1024 and height 768. */
  lemma NewBuilderExample()
    ensures var r := NewBuilder(Null, "", true, true, Str(""), Str(""), Str(""), Str("1024x768"), Str(""));
            r.Ok? && r.value.width == 1024 && r.value.height == 768
  {
    ParseSizeAccepts1024x768();
  }

  /** `getBaseUrl`: the base URL with blanks trimmed from both ends, and the
      empty string for `null`. */
  function GetBaseUrl(b: Builder): (r: string)
    ensures b.baseUrl.Null? ==> r == []
    ensures r == [] || (!IsBlank(r[0]) && !IsBlank(r[|r| - 1]))
    ensures b.baseUrl.Str? ==> exists i, j :: 0 <= i <= j <= |b.baseUrl.chars| && r == b.baseUrl.chars[i..j]
                                            && BlankOutside(b.baseUrl.chars, i, j)
  {
    TrimToEmpty(b.baseUrl)
  }

  // ---------------------------------------------------------------------
  // What `perform` computes before it boots the runner

  /** The values `perform` hands to the remote callable besides the builder. */
  datatype CallableArgs = CallableArgs(
    junitdir: Option<string>,
    height: Int32,
    width: Int32,
    capabilities: seq<string>)

  /** The capability lines of the configuration: none for `null`, otherwise
      the lines between newlines. */
  function CapabilityLines(b: Builder): seq<string> {
    if b.capabilities.Null? then [] else Pieces(b.capabilities.chars, '\n')
  }

  /** `perform` up to the remote call: the JUnit directory (`junitPath` is where
      the workspace resolves `junitresult`) only when `junitresult` is set, the
      window size parsed again from `size`, and the capabilities split on
      newlines (`String.split`, so trailing empty lines vanish). A failing
      parse is caught and ends the build step unsuccessfully. */
  function PerformArgs(b: Builder, junitPath: string): (r: Result<CallableArgs, SizeError>)
    ensures r.Ok? <==> ParseSize(b.size).Ok?
    ensures b.Valid() ==> r.Ok? && r.value.width == b.width && r.value.height == b.height
    ensures r.Ok? ==> r.value.width == ParseSize(b.size).value.width
                      && r.value.height == ParseSize(b.size).value.height
    ensures r.Ok? ==> (r.value.junitdir.Some? <==> !IsEmpty(b.junitresult))
                      && (r.value.junitdir.Some? ==> r.value.junitdir.value == junitPath)
    ensures r.Ok? ==> NonEmpty(r.value.capabilities) == NonEmpty(CapabilityLines(b))
  {
    var junitdir := if IsEmpty(b.junitresult) then None else Some(junitPath);
    match ParseSize(b.size)
    case Err(e) => Err(e)
    case Ok(sz) =>
      var capabilities := if b.capabilities.Null? then [] else RegexSplit(b.capabilities.chars, '\n');
      RegexSplitNonEmpty(if b.capabilities.Null? then [] else b.capabilities.chars, '\n');
      Ok(CallableArgs(junitdir, sz.height, sz.width, capabilities))
  }
}

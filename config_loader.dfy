/** src/config_loader.py: reading the printer's settings file. Each line is
    stripped; blank lines and '#' comments are skipped, as are lines without
    '='; otherwise the line is split at its first '=' into a key and a value,
    both stripped, and the value is typed as a boolean, an integer, a decimal
    or left as text. A later line for the same key overwrites an earlier one.
    A missing settings file falls back to default.conf in the same
    directory, which is copied into place; if that is missing too the run
    stops. */
module ConfigLoader {
  import opened Results
  import opened Text

  /** A typed setting. Decimals are exact: binary floating point is not
      modelled. */
  datatype Value = Bool(b: bool) | Int(i: int) | Dec(r: real) | Str(s: string)

  datatype ConfigError =
    | ConfigMissing(searched: string, fallback: string)
    | BadNumber(key: string, text: string)

  type Config = map<string, Value>

  /** What one line of the file says. */
  datatype Entry = Skip | Assign(key: string, text: string)

  function ParseLine(line: string): (e: Entry)
    ensures e.Skip? <==> (Strip(line) == [] || Strip(line)[0] == '#' || '=' !in Strip(line))
    ensures e.Assign? ==> '=' !in e.key
  {
    var t := Strip(line);
    if t == [] || t[0] == '#' then Skip
    else if '=' in t then
      var parts := SplitFirst(t, '=');
      StripAddsNothing(parts.0, '=');
      Assign(Strip(parts.0), Strip(parts.1))
    else Skip
  }

  /** An assignment line is its key, the first '=', and its value: the key
      holds no '=', the value may. */
  lemma AssignmentSplit(line: string)
    requires ParseLine(line).Assign?
    ensures exists before, after ::
              && Strip(line) == before + "=" + after
              && '=' !in before
              && ParseLine(line).key == Strip(before) && ParseLine(line).text == Strip(after)
  {
    var parts := SplitFirst(Strip(line), '=');
    assert Strip(line) == parts.0 + "=" + parts.1;
  }

  // ---------------------------------------------------------------------
  // Typing a value

  predicate IsBoolText(v: string) {
    Lower(v) == "true" || Lower(v) == "false"
  }

  /** The source's number test: with the first '.' and then the first '-'
      removed, what is left is a non-empty run of digits. */
  predicate LooksNumeric(v: string) {
    IsDigitString(RemoveFirst(RemoveFirst(v, '.'), '-'))
  }

  /** A leading minus sign, and the rest. */
  function SplitSign(v: string): (bool, string) {
    if v != [] && v[0] == '-' then (true, v[1..]) else (false, v)
  }

  /** Python's int() on text made of digits and '-': an optional leading
      minus, then at least one digit. */
  function PyInt(v: string): Option<int> {
    var (neg, body) := SplitSign(v);
    if IsDigitString(body) then Some(if neg then -(DigitsValue(body) as int) else DigitsValue(body))
    else None
  }

  /** The unsigned part of a decimal: digits around at most one point, with
      at least one digit in all. */
  function UnsignedDecimal(body: string): Option<real> {
    if '.' in body then
      var parts := SplitFirst(body, '.');
      if AllDigits(parts.0) && AllDigits(parts.1) && |parts.0| + |parts.1| > 0 then
        Some(DecimalValue(parts.0, parts.1))
      else None
    else if IsDigitString(body) then Some(DigitsValue(body) as real)
    else None
  }

  /** The value of fraction digits f written after a point: each digit
      counts a tenth of the one before it. */
  function FractionValue(f: string): (x: real)
    requires AllDigits(f)
    ensures 0.0 <= x < 1.0
  {
    if f == [] then 0.0 else (DigitValue(f[0]) as real + FractionValue(f[1..])) / 10.0
  }

  /** The number whole digits w, a point and fraction digits f denote. */
  function DecimalValue(w: string, f: string): real
    requires AllDigits(w) && AllDigits(f)
  {
    DigitsValue(w) as real + FractionValue(f)
  }

  /** Python's float() on text made of digits, '.' and '-'. */
  function PyFloat(v: string): Option<real> {
    var (neg, body) := SplitSign(v);
    match UnsignedDecimal(body)
    case Some(m) => Some(if neg then -m else m)
    case None => None
  }

  /** The type a value takes: "true"/"false" in any case is a boolean; text
      passing the number test is a decimal if it holds a '.', an integer
      otherwise, and an error if the conversion rejects it; anything else
      stays text. */
  function Convert(key: string, v: string): (r: Result<Value, ConfigError>)
    ensures r.Err? ==> r.error == BadNumber(key, v) && LooksNumeric(v)
    ensures r.Ok? && r.value.Str? ==> r.value.s == v && !LooksNumeric(v) && !IsBoolText(v)
    ensures IsBoolText(v) ==> r == Ok(Bool(Lower(v) == "true"))
    ensures !IsBoolText(v) && !LooksNumeric(v) ==> r == Ok(Str(v))
  {
    if IsBoolText(v) then Ok(Bool(Lower(v) == "true"))
    else if LooksNumeric(v) then
      if '.' in v then
        match PyFloat(v)
        case Some(x) => Ok(Dec(x))
        case None => Err(BadNumber(key, v))
      else
        match PyInt(v)
        case Some(n) => Ok(Int(n))
        case None => Err(BadNumber(key, v))
    else Ok(Str(v))
  }

  // ---------------------------------------------------------------------
  // The whole file

  /** A way of typing a key's value text. The file-level properties below
      hold for every such conversion, Convert included. */
  type Converter = (string, string) -> Result<Value, ConfigError>

  /** The entries of a file, line by line. */
  function Entries(lines: seq<string>): (es: seq<Entry>)
    ensures |es| == |lines|
  {
    if lines == [] then [] else Entries(lines[..|lines| - 1]) + [ParseLine(lines[|lines| - 1])]
  }

  /** Entry i is what line i says. */
  lemma {:induction false} EntriesAt(lines: seq<string>, i: nat)
    requires i < |lines|
    ensures Entries(lines)[i] == ParseLine(lines[i])
  {
    if i < |lines| - 1 {
      EntriesAt(lines[..|lines| - 1], i);
    }
  }

  /** One entry's effect on the settings read so far. */
  function Apply(config: Config, e: Entry, conv: Converter): Result<Config, ConfigError> {
    match e
    case Skip => Ok(config)
    case Assign(key, text) =>
      match conv(key, text)
      case Ok(v) => Ok(config[key := v])
      case Err(e) => Err(e)
  }

  /** The entries in order, stopping at the first conversion error. */
  function Fold(entries: seq<Entry>, conv: Converter): Result<Config, ConfigError> {
    if entries == [] then Ok(map[])
    else
      match Fold(entries[..|entries| - 1], conv)
      case Ok(config) => Apply(config, entries[|entries| - 1], conv)
      case Err(e) => Err(e)
  }

  /** The settings a file's lines give. */
  function ParseLines(lines: seq<string>): Result<Config, ConfigError> {
    Fold(Entries(lines), Convert)
  }

  predicate EntryOk(e: Entry, conv: Converter) {
    e.Skip? || conv(e.key, e.text).Ok?
  }

  predicate Sets(e: Entry, key: string) {
    e.Assign? && e.key == key
  }

  /** The parsing loop: the settings dictionary filled line by line. */
  method ParseConfigLines(lines: seq<string>) returns (r: Result<Config, ConfigError>)
    ensures r == ParseLines(lines)
  {
    ghost var entries := Entries(lines);
    var config: Config := map[];
    var i := 0;
    while i < |lines|
      invariant 0 <= i <= |lines|
      invariant Fold(entries[..i], Convert) == Ok(config)
    {
      assert entries[i] == ParseLine(lines[i]) by { EntriesAt(lines, i); }
      assert Fold(entries[..i + 1], Convert) == Apply(config, entries[i], Convert) by {
        FoldOneMore(entries, i, Convert);
      }
      var line := Strip(lines[i]);
      if line != [] && line[0] != '#' && '=' in line {
        var parts := SplitFirst(line, '=');
        var key := Strip(parts.0);
        var value := Strip(parts.1);
        assert entries[i] == Assign(key, value);
        var typed := TypeValue(key, value);
        if typed.Err? {
          assert Fold(entries, Convert) == Err(typed.error) by {
            ErrorSticks(entries[..i + 1], entries[i + 1..], Convert);
            TakeDrop(entries, i + 1);
          }
          return Err(typed.error);
        }
        assert Apply(config, entries[i], Convert) == Ok(config[key := typed.value]);
        config := config[key := typed.value];
      } else {
        assert entries[i] == Skip;
        assert Apply(config, entries[i], Convert) == Ok(config);
      }
      i := i + 1;
    }
    TakeDrop(entries, |lines|);
    r := Ok(config);
  }

  /** The typing step for one value, as the loop performs it. */
  method TypeValue(key: string, value: string) returns (r: Result<Value, ConfigError>)
    ensures r == Convert(key, value)
  {
    var lowered := Lower(value);
    if lowered == "true" || lowered == "false" {
      return Ok(Bool(lowered == "true"));
    }
    if IsDigitString(RemoveFirst(RemoveFirst(value, '.'), '-')) {
      if '.' in value {
        var x := PyFloat(value);
        if x.None? {
          return Err(BadNumber(key, value));
        }
        return Ok(Dec(x.value));
      }
      var n := PyInt(value);
      if n.None? {
        return Err(BadNumber(key, value));
      }
      return Ok(Int(n.value));
    }
    return Ok(Str(value));
  }

  /** Folding one more entry applies it to what the shorter fold gave. */
  lemma FoldOneMore(entries: seq<Entry>, n: nat, conv: Converter)
    requires n < |entries|
    ensures Fold(entries[..n + 1], conv)
            == match Fold(entries[..n], conv)
               case Ok(config) => Apply(config, entries[n], conv)
               case Err(e) => Err(e)
  {
    assert entries[..n + 1][..n] == entries[..n];
  }

  lemma TakeDrop<T>(s: seq<T>, n: nat)
    requires n <= |s|
    ensures s[..n] + s[n..] == s && s[..|s|] == s
  {
  }

  /** Once a line has failed, no later line changes the outcome. */
  lemma {:induction false} ErrorSticks(done: seq<Entry>, rest: seq<Entry>, conv: Converter)
    requires Fold(done, conv).Err?
    ensures Fold(done + rest, conv) == Fold(done, conv)
  {
    if rest != [] {
      var init := rest[..|rest| - 1];
      ErrorSticks(done, init, conv);
      assert (done + rest)[..|done + rest| - 1] == done + init;
    } else {
      assert done + rest == done;
    }
  }

  // ---------------------------------------------------------------------
  // The settings file and its fallback

  /** Where the fallback lives: default.conf beside the settings file. */
  function DefaultConfigPath(configFile: string): string {
    Join(Dirname(configFile), "default.conf")
  }

  /** The file system is a map from path to the file's lines. A missing
      settings file is replaced by a copy of default.conf when that exists;
      if neither exists the run stops naming both paths. */
  method LoadConfig(configFile: string, files: map<string, seq<string>>)
    returns (r: Result<Config, ConfigError>, filesAfter: map<string, seq<string>>)
    ensures configFile in files ==> filesAfter == files && r == ParseLines(files[configFile])
    ensures configFile !in files && DefaultConfigPath(configFile) in files ==>
              && filesAfter == files[configFile := files[DefaultConfigPath(configFile)]]
              && r == ParseLines(files[DefaultConfigPath(configFile)])
    ensures configFile !in files && DefaultConfigPath(configFile) !in files ==>
              filesAfter == files && r == Err(ConfigMissing(configFile, DefaultConfigPath(configFile)))
  {
    filesAfter := files;
    if configFile !in files {
      var configDir := Dirname(configFile);
      var defaultConfig := Join(configDir, "default.conf");
      if defaultConfig in files {
        filesAfter := files[configFile := files[defaultConfig]];
      } else {
        return Err(ConfigMissing(configFile, defaultConfig)), filesAfter;
      }
    }
    r := ParseConfigLines(filesAfter[configFile]);
  }

  // ---------------------------------------------------------------------
  // Properties of value typing

  /** Every character of a value passing the number test is a digit, '.' or
      '-'; in particular such a value is never "true" or "false". */
  lemma NumericChars(v: string)
    requires LooksNumeric(v)
    ensures forall k :: 0 <= k < |v| ==> IsDigit(v[k]) || v[k] == '.' || v[k] == '-'
    ensures !IsBoolText(v)
  {
    var u := RemoveFirst(RemoveFirst(v, '.'), '-');
    forall k | 0 <= k < |v| && v[k] != '.' && v[k] != '-'
      ensures IsDigit(v[k])
    {
      RemoveFirstKeepsOthers(v, '.', v[k]);
      RemoveFirstKeepsOthers(RemoveFirst(v, '.'), '-', v[k]);
      var j :| 0 <= j < |u| && u[j] == v[k];
    }
    if |v| > 0 {
      assert Lower(v)[0] != 't' && Lower(v)[0] != 'f';
    }
  }

  /** Digits around at most one point, once the point is removed, read as a
      decimal; with no point they are an integer. */
  lemma UnsignedParses(body: string)
    requires IsDigitString(RemoveFirst(body, '.'))
    ensures UnsignedDecimal(body).Some?
    ensures '.' !in body ==> IsDigitString(body)
  {
    if '.' in body {
      var parts := SplitFirst(body, '.');
      var joined := parts.0 + parts.1;
      assert RemoveFirst(body, '.') == joined;
      forall k | 0 <= k < |parts.0|
        ensures IsDigit(parts.0[k])
      {
        assert parts.0[k] == joined[k];
      }
      forall k | 0 <= k < |parts.1|
        ensures IsDigit(parts.1[k])
      {
        assert parts.1[k] == joined[|parts.0| + k];
      }
    }
  }

  /** Without a '-', a value passing the number test converts. */
  lemma UnsignedConverts(v: string)
    requires LooksNumeric(v) && '-' !in v
    ensures '.' in v ==> PyFloat(v).Some?
    ensures '.' !in v ==> PyInt(v).Some?
  {
    RemoveFirstKeepsOthers(v, '.', '-');
    UnsignedParses(v);
    assert SplitSign(v) == (false, v);
  }

  /** With its '-' in front, a value passing the number test converts. */
  lemma NegativeConverts(v: string)
    requires LooksNumeric(v) && v != [] && v[0] == '-'
    ensures '.' in v ==> PyFloat(v).Some?
    ensures '.' !in v ==> PyInt(v).Some?
  {
    var body := v[1..];
    assert v == ['-'] + body;
    RemoveFirstPastOther(body, '.', '-');
    RemoveFirstAtHead(RemoveFirst(body, '.'), '-');
    UnsignedParses(body);
    assert SplitSign(v) == (true, body);
    assert '.' in v <==> '.' in body;
  }

  /** A '-' anywhere but in front makes both conversions fail. */
  lemma InnerMinusFails(v: string)
    requires '-' in v && v[0] != '-'
    ensures PyInt(v).None? && PyFloat(v).None?
  {
    assert SplitSign(v) == (false, v);
    if '.' in v {
      var parts := SplitFirst(v, '.');
      assert '-' in parts.0 || '-' in parts.1;
    }
  }

  /** A value passing the number test converts exactly when it has no '-'
      or the '-' comes first: "1-2" and "1.-5" pass the test and are then
      rejected. */
  lemma NumericConvertsIff(key: string, v: string)
    requires LooksNumeric(v)
    ensures Convert(key, v).Ok? <==> ('-' !in v || v[0] == '-')
    ensures Convert(key, v).Ok? ==> if '.' in v then Convert(key, v).value.Dec? else Convert(key, v).value.Int?
  {
    NumericChars(v);
    if '-' !in v {
      UnsignedConverts(v);
    } else if v[0] == '-' {
      NegativeConverts(v);
    } else {
      InnerMinusFails(v);
    }
  }

  /** str(n) for an integer: digits with a leading '-' when negative. */
  function IntText(n: int): (s: string)
    ensures s != []
  {
    if n < 0 then "-" + NatToString(-n) else NatToString(n)
  }

  /** An integer written out reads back as that integer. */
  lemma IntRoundTrip(key: string, n: int)
    ensures Convert(key, IntText(n)) == Ok(Int(n))
  {
    if n < 0 {
      var v := IntText(n);
      assert v[1..] == NatToString(-n);
      NegativeDigitsConvert(key, v);
    } else {
      DigitsConvert(key, NatToString(n));
    }
  }

  /** Text passing the number test without a point converts to what int()
      makes of it. */
  lemma WholeValueConverts(key: string, v: string, n: int)
    requires LooksNumeric(v) && '.' !in v && PyInt(v) == Some(n)
    ensures Convert(key, v) == Ok(Int(n))
  {
    NumericChars(v);
  }

  /** A run of digits reads back as the number it denotes. */
  lemma DigitsConvert(key: string, d: string)
    requires IsDigitString(d)
    ensures Convert(key, d) == Ok(Int(DigitsValue(d)))
  {
    assert '.' !in d && '-' !in d;
    assert SplitSign(d) == (false, d);
    WholeValueConverts(key, d, DigitsValue(d));
  }

  /** int() of a minus sign and digits is the negated value of the digits. */
  lemma NegatedInt(v: string, body: string)
    requires SplitSign(v) == (true, body) && IsDigitString(body)
    ensures PyInt(v) == Some(-(DigitsValue(body) as int))
  {
  }

  /** A minus sign and a run of digits read back as the negated number. */
  lemma NegativeDigitsConvert(key: string, v: string)
    requires v != [] && v[0] == '-' && IsDigitString(v[1..])
    ensures Convert(key, v) == Ok(Int(-(DigitsValue(v[1..]) as int)))
  {
    NegativeDigitsNumeric(v);
    WholeValueConverts(key, v, -(DigitsValue(v[1..]) as int));
  }

  /** A minus sign and a run of digits pass the number test, hold no point,
      and int() negates the digits' value. */
  lemma NegativeDigitsNumeric(v: string)
    requires v != [] && v[0] == '-' && IsDigitString(v[1..])
    ensures LooksNumeric(v) && '.' !in v && PyInt(v) == Some(-(DigitsValue(v[1..]) as int))
  {
    var d := v[1..];
    assert v == ['-'] + d;
    DigitsNumeric(d);
    MinusKeepsNumeric(v);
    NegatedInt(v, d);
  }

  /** A run of digits passes the number test and holds no point or minus. */
  lemma DigitsNumeric(d: string)
    requires IsDigitString(d)
    ensures LooksNumeric(d) && '.' !in d && '-' !in d
  {
    assert forall k :: 0 <= k < |d| ==> IsDigit(d[k]);
  }

  /** Text starting with a digit or a point is not "true" or "false". */
  lemma NumberFirstNotBool(v: string)
    requires v != [] && (IsDigit(v[0]) || v[0] == '.')
    ensures !IsBoolText(v)
  {
    assert Lower(v)[0] == v[0];
  }

  /** In w + [c] + f with no c in w, the first c is the one after w. */
  lemma FirstAfter(w: string, c: char, f: string)
    requires c !in w
    ensures SplitFirst(w + [c] + f, c) == (w, f)
    ensures RemoveFirst(w + [c] + f, c) == w + f
  {
    var v := w + [c] + f;
    assert v[|w|] == c;
    assert forall k :: 0 <= k < |w| ==> v[k] != c by {
      forall k | 0 <= k < |w|
        ensures v[k] != c
      {
        assert v[k] == w[k];
      }
    }
    assert FirstIndex(v, c) == |w|;
    assert v[..|w|] == w && v[|w| + 1..] == f;
  }

  /** Digits, a point and digits: the number test passes and the text reads
      as whole part plus fraction. */
  lemma PointedDigits(w: string, f: string)
    requires AllDigits(w) && AllDigits(f) && |w| + |f| > 0
    ensures LooksNumeric(w + "." + f)
    ensures '-' !in w + "." + f
    ensures UnsignedDecimal(w + "." + f) == Some(DecimalValue(w, f))
  {
    var v := w + "." + f;
    assert '.' !in w && '-' !in w && '-' !in f;
    assert v == w + ['.'] + f;
    FirstAfter(w, '.', f);
    var joined := w + f;
    assert forall k :: 0 <= k < |joined| ==> IsDigit(joined[k]) by {
      forall k | 0 <= k < |joined|
        ensures IsDigit(joined[k])
      {
        if k >= |w| {
          assert joined[k] == f[k - |w|];
        }
      }
    }
    assert '-' !in joined;
    assert '.' in v;
    assert SplitFirst(v, '.') == (w, f);
    assert AllDigits(w) && AllDigits(f) && |w| + |f| > 0;
  }

  /** Whole digits, a point and fraction digits read back as the decimal
      they denote. */
  lemma PointedConverts(key: string, w: string, f: string)
    requires AllDigits(w) && AllDigits(f) && |w| + |f| > 0
    ensures Convert(key, w + "." + f) == Ok(Dec(DecimalValue(w, f)))
  {
    var v := w + "." + f;
    PointedDigits(w, f);
    assert v[0] == if w == [] then '.' else w[0];
    NumberFirstNotBool(v);
    assert SplitSign(v) == (false, v);
    assert '.' in v;
  }

  /** Text passing the number test with a point converts to what float()
      makes of it. */
  lemma PointedValueConverts(key: string, v: string, x: real)
    requires LooksNumeric(v) && '.' in v && PyFloat(v) == Some(x)
    ensures Convert(key, v) == Ok(Dec(x))
  {
    NumericChars(v);
  }

  /** float() of a minus sign and an unsigned decimal is its negation. */
  lemma NegatedFloat(v: string, body: string, x: real)
    requires SplitSign(v) == (true, body)
    requires UnsignedDecimal(body) == Some(x)
    ensures PyFloat(v) == Some(-x)
  {
  }

  /** float() of a minus sign, whole digits, a point and fraction digits is
      the negated decimal. */
  lemma NegativePointedFloat(w: string, f: string)
    requires AllDigits(w) && AllDigits(f) && |w| + |f| > 0
    ensures PyFloat("-" + w + "." + f) == Some(-DecimalValue(w, f))
  {
    var v := "-" + w + "." + f;
    var body := w + "." + f;
    assert v[1..] == body;
    assert UnsignedDecimal(body) == Some(DecimalValue(w, f)) by {
      PointedDigits(w, f);
    }
    NegatedFloat(v, body, DecimalValue(w, f));
  }

  /** A minus sign in front of text passing the number test keeps it
      passing. */
  lemma MinusKeepsNumeric(v: string)
    requires v != [] && v[0] == '-' && LooksNumeric(v[1..]) && '-' !in v[1..]
    ensures LooksNumeric(v)
  {
    var body := v[1..];
    assert v == ['-'] + body;
    RemoveFirstKeepsOthers(body, '.', '-');
    RemoveFirstPastOther(body, '.', '-');
    RemoveFirstAtHead(RemoveFirst(body, '.'), '-');
  }

  /** A minus sign, whole digits, a point and fraction digits read back as
      the negated decimal. */
  lemma NegativePointedConverts(key: string, w: string, f: string)
    requires AllDigits(w) && AllDigits(f) && |w| + |f| > 0
    ensures Convert(key, "-" + w + "." + f) == Ok(Dec(-DecimalValue(w, f)))
  {
    var v := "-" + w + "." + f;
    var body := w + "." + f;
    assert v[1..] == body;
    assert v[|w| + 1] == '.';
    assert LooksNumeric(v) by {
      PointedDigits(w, f);
      MinusKeepsNumeric(v);
    }
    NegativePointedFloat(w, f);
    PointedValueConverts(key, v, -DecimalValue(w, f));
  }

  /** Digits, a '-' and digits pass the number test and are then rejected:
      "1-2" stops the run instead of staying text. */
  lemma InnerMinusRejected(key: string, a: string, b: string)
    requires IsDigitString(a) && AllDigits(b)
    ensures Convert(key, a + "-" + b) == Err(BadNumber(key, a + "-" + b))
  {
    var v := a + "-" + b;
    assert v == a + ['-'] + b;
    assert '-' !in a && '.' !in a && '.' !in b;
    assert '.' !in v;
    FirstAfter(a, '-', b);
    var joined := a + b;
    assert forall k :: 0 <= k < |joined| ==> IsDigit(joined[k]) by {
      forall k | 0 <= k < |joined|
        ensures IsDigit(joined[k])
      {
        if k >= |a| {
          assert joined[k] == b[k - |a|];
        }
      }
    }
    assert LooksNumeric(v);
    assert v[0] == a[0];
    NumericConvertsIff(key, v);
  }

  /** A value holding any character other than a digit, '.' or '-' stays
      text unless it is "true" or "false". */
  lemma OtherCharStaysText(key: string, v: string, k: nat)
    requires k < |v| && !IsDigit(v[k]) && v[k] != '.' && v[k] != '-'
    requires !IsBoolText(v)
    ensures Convert(key, v) == Ok(Str(v))
  {
    if LooksNumeric(v) {
      NumericChars(v);
      assert false;
    }
  }

  // ---------------------------------------------------------------------
  // Properties of the whole file

  /** Parsing succeeds exactly when no entry fails conversion. */
  lemma {:induction false} OkIffAllEntriesOk(entries: seq<Entry>, conv: Converter)
    ensures Fold(entries, conv).Ok? <==> forall i :: 0 <= i < |entries| ==> EntryOk(entries[i], conv)
  {
    if entries != [] {
      var init := entries[..|entries| - 1];
      OkIffAllEntriesOk(init, conv);
      assert forall i :: 0 <= i < |init| ==> init[i] == entries[i];
    }
  }

  /** The error is the one the first failing entry raises. */
  lemma ErrorIsFirstBadEntry(entries: seq<Entry>, conv: Converter, i: nat)
    requires i < |entries| && !EntryOk(entries[i], conv)
    requires forall j :: 0 <= j < i ==> EntryOk(entries[j], conv)
    ensures Fold(entries, conv) == Err(conv(entries[i].key, entries[i].text).error)
  {
    var done := entries[..i + 1];
    var init := entries[..i];
    assert done[..|done| - 1] == init;
    assert forall j :: 0 <= j < |init| ==> init[j] == entries[j];
    OkIffAllEntriesOk(init, conv);
    ErrorSticks(done, entries[i + 1..], conv);
    assert done + entries[i + 1..] == entries;
  }

  /** A key is set exactly when some entry assigns it. */
  lemma {:induction false} KeysFromEntries(entries: seq<Entry>, conv: Converter, config: Config)
    requires Fold(entries, conv) == Ok(config)
    ensures forall key :: key in config <==> exists i :: 0 <= i < |entries| && Sets(entries[i], key)
  {
    if entries != [] {
      var init := entries[..|entries| - 1];
      var prev := Fold(init, conv).value;
      KeysFromEntries(init, conv, prev);
      forall key
        ensures key in config <==> exists i :: 0 <= i < |entries| && Sets(entries[i], key)
      {
        if key in prev {
          var i :| 0 <= i < |init| && Sets(init[i], key);
          assert Sets(entries[i], key);
        }
        if exists i :: 0 <= i < |entries| && Sets(entries[i], key) {
          var i :| 0 <= i < |entries| && Sets(entries[i], key);
          if i < |init| {
            assert Sets(init[i], key);
          }
        }
      }
    }
  }

  /** A key's value is the one its last assigning entry gives it. */
  lemma {:induction false} LastAssignmentWins(entries: seq<Entry>, conv: Converter, config: Config, i: nat)
    requires Fold(entries, conv) == Ok(config)
    requires i < |entries| && entries[i].Assign?
    requires forall j :: i < j < |entries| ==> !Sets(entries[j], entries[i].key)
    ensures entries[i].key in config
    ensures conv(entries[i].key, entries[i].text) == Ok(config[entries[i].key])
  {
    var init := entries[..|entries| - 1];
    var prev := Fold(init, conv).value;
    if i < |entries| - 1 {
      assert init[i] == entries[i];
      forall j | i < j < |init|
        ensures !Sets(init[j], entries[i].key)
      {
        assert init[j] == entries[j];
      }
      LastAssignmentWins(init, conv, prev, i);
    }
  }

  /** A comment or blank line, or one without '=', leaves the settings as
      they were. */
  lemma SkippedLineAddsNothing(lines: seq<string>, line: string)
    requires Strip(line) == [] || Strip(line)[0] == '#' || '=' !in Strip(line)
    ensures ParseLines(lines + [line]) == ParseLines(lines)
  {
    assert (lines + [line])[..|lines|] == lines;
    assert Entries(lines + [line]) == Entries(lines) + [Skip];
    assert (Entries(lines) + [Skip])[..|lines|] == Entries(lines);
    assert (Entries(lines) + [Skip])[|lines|] == Skip;
  }

  /** A key and a value, both trimmed, written as key=value parse back as
      that key and value; the value may itself hold '='. */
  lemma AssignmentRoundTrip(key: string, value: string)
    requires Trimmed(key) && Trimmed(value)
    requires key != [] && key[0] != '#' && '=' !in key
    ensures ParseLine(key + "=" + value) == Assign(key, value)
  {
    var line := key + "=" + value;
    assert line == key + ['='] + value;
    assert line[0] == key[0];
    assert line[|line| - 1] == if value == [] then '=' else value[|value| - 1];
    StripTrimmed(line);
    FirstAfter(key, '=', value);
    StripTrimmed(key);
    StripTrimmed(value);
  }

  // ---------------------------------------------------------------------
  // Examples

  lemma BoolExample()
    ensures Convert("GUIDE_LINE_ENABLED", "False") == Ok(Bool(false))
  {
    assert Lower("False") == "false";
  }

  /** A decimal with no whole digits, as in GAP_MM=.5, is a decimal. */
  lemma LeadingPointExample()
    ensures Convert("GAP_MM", ".5") == Ok(Dec(0.5))
  {
    assert DecimalValue("", "5") == 0.5 by {
      assert FractionValue("5") == (5.0 + FractionValue("")) / 10.0;
    }
    assert "" + "." + "5" == ".5";
    PointedConverts("GAP_MM", "", "5");
  }

  /** ... and so is its negation, as in GAP_MM=-.5. */
  lemma NegativeLeadingPointExample()
    ensures Convert("GAP_MM", "-.5") == Ok(Dec(-0.5))
  {
    assert DecimalValue("", "5") == 0.5 by {
      assert FractionValue("5") == (5.0 + FractionValue("")) / 10.0;
    }
    assert "-" + "" + "." + "5" == "-.5";
    NegativePointedConverts("GAP_MM", "", "5");
  }

  lemma IntExample()
    ensures Convert("DPI", "300") == Ok(Int(300))
  {
    IntRoundTrip("DPI", 300);
    assert IntText(300) == "300";
  }

  // ---------------------------------------------------------------------
  // Properties of the fallback

  /** The fallback for the default settings path sits in the same directory. */
  lemma DefaultConfigBeside(dir: string, name: string)
    requires dir != [] && dir[|dir| - 1] != '/' && '/' !in name
    ensures DefaultConfigPath(dir + "/" + name) == dir + "/" + "default.conf"
  {
    SiblingPath(dir, name, "default.conf");
  }

  /** A bare file name falls back to default.conf in the current directory. */
  lemma DefaultConfigBare(name: string)
    requires '/' !in name
    ensures DefaultConfigPath(name) == "default.conf"
  {
    assert LastIndex(name, '/') == -1;
  }
}

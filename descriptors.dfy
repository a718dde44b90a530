/**
 * Entity descriptors: the immutable record a renderer needs to draw an entity, and the
 * line-oriented `key=value` format it is read from.
 *
 * The reader goes through the lines in order. A line without `=` is skipped; otherwise it is
 * split at its first `=` into a key and a value. Six keys are recognised, ignoring ASCII case;
 * any other key is ignored. A later line for a key overrides an earlier one. The three numeric
 * keys have their value converted by a float parser; a conversion failure aborts the whole load.
 * Keys never seen keep their defaults, and when no model or no texture was given there is no
 * descriptor at all.
 */
module Descriptors {
  import opened Wrappers

  /** The immutable descriptor record; its fields are the record's getters. */
  datatype EntityDescriptor = EntityDescriptor(
    modelName: string,
    textureName: string,
    jarPath: string,
    defScale: real,
    reflectivity: real,
    shineDampening: real)

  /** The decimal-to-float conversion, partial: None where the text is not a number. */
  type FloatParser = string -> Option<real>

  /** The six recognised keys. */
  datatype Key = Model | Texture | JarFile | Scale | Reflectivity | ShineDampening

  /** The spelling of each key, in lower case. */
  function KeyName(k: Key): string {
    match k
    case Model => "model"
    case Texture => "texture"
    case JarFile => "jarfile"
    case Scale => "scale"
    case Reflectivity => "reflectivity"
    case ShineDampening => "shinedampening"
  }

  /** Keys whose value goes through the float parser. */
  predicate IsNumeric(k: Key) {
    k.Scale? || k.Reflectivity? || k.ShineDampening?
  }

  /** ASCII lower-casing; every other character is left alone. */
  function LowerAscii(c: char): char {
    if 'A' <= c <= 'Z' then (c as int + 32) as char else c
  }

  /** ASCII lower-casing of a whole string. */
  function Lower(s: string): string {
    seq(|s|, i requires 0 <= i < |s| => LowerAscii(s[i]))
  }

  /** Equality up to ASCII case. */
  predicate EqualsIgnoreCase(a: string, b: string) {
    Lower(a) == Lower(b)
  }

  /** The key a line's left-hand side names, tried in the reader's order; None for an unknown key. */
  function MatchKey(k: string): (r: Option<Key>)
    ensures r.Some? ==> EqualsIgnoreCase(k, KeyName(r.value))
    ensures r.None? <==> forall key: Key :: !EqualsIgnoreCase(k, KeyName(key))
  {
    if EqualsIgnoreCase(k, "model") then Some(Model)
    else if EqualsIgnoreCase(k, "texture") then Some(Texture)
    else if EqualsIgnoreCase(k, "jarfile") then Some(JarFile)
    else if EqualsIgnoreCase(k, "scale") then Some(Scale)
    else if EqualsIgnoreCase(k, "reflectivity") then Some(Reflectivity)
    else if EqualsIgnoreCase(k, "shinedampening") then Some(ShineDampening)
    else None
  }

  /** Splits a line at its first `=` into key and value; None when the line has no `=`. */
  function SplitFirst(line: string): (r: Option<(string, string)>)
    ensures r.None? <==> '=' !in line
    ensures r.Some? ==> line == r.value.0 + "=" + r.value.1 && '=' !in r.value.0
  {
    if |line| == 0 then None
    else if line[0] == '=' then Some(("", line[1..]))
    else
      match SplitFirst(line[1..])
      case None => None
      case Some((k, v)) => Some(([line[0]] + k, v))
  }

  /** What a line asks for: a recognised key and its (untrimmed) value, or nothing. */
  function Assignment(line: string): Option<(Key, string)> {
    match SplitFirst(line)
    case None => None
    case Some((k, v)) =>
      match MatchKey(k)
      case None => None
      case Some(key) => Some((key, v))
  }

  /** Does this line assign the given key? */
  predicate Assigns(line: string, key: Key) {
    Assignment(line).Some? && Assignment(line).value.0 == key
  }

  /** Does this line assign a numeric key a value the parser rejects? */
  predicate BadNumber(line: string, parse: FloatParser) {
    Assignment(line).Some? && IsNumeric(Assignment(line).value.0) && parse(Assignment(line).value.1).None?
  }

  /**
   * The reader's six working variables. A model or texture of None means no line gave one,
   * which is when the reader's variable still holds its initial empty literal.
   */
  datatype Fields = Fields(
    model: Option<string>,
    texture: Option<string>,
    jarPath: string,
    scale: real,
    reflectivity: real,
    shineDampening: real)

  /** The values before the first line is read. */
  const Defaults: Fields := Fields(None, None, "", 1.0, 0.0, 1.0)

  /** One field seen uniformly: absent, a piece of text, or a number. */
  datatype FieldValue = Absent | Text(text: string) | Num(num: real)

  /** The reader's current value for a key. */
  function Get(f: Fields, key: Key): FieldValue {
    match key
    case Model => if f.model.Some? then Text(f.model.value) else Absent
    case Texture => if f.texture.Some? then Text(f.texture.value) else Absent
    case JarFile => Text(f.jarPath)
    case Scale => Num(f.scale)
    case Reflectivity => Num(f.reflectivity)
    case ShineDampening => Num(f.shineDampening)
  }

  /** What a descriptor's getter returns for a key. */
  function DescriptorValue(d: EntityDescriptor, key: Key): FieldValue {
    match key
    case Model => Text(d.modelName)
    case Texture => Text(d.textureName)
    case JarFile => Text(d.jarPath)
    case Scale => Num(d.defScale)
    case Reflectivity => Num(d.reflectivity)
    case ShineDampening => Num(d.shineDampening)
  }

  /** Stores a value under a key; a numeric value the parser rejects fails with that value's text. */
  function Store(f: Fields, key: Key, v: string, parse: FloatParser): Result<Fields, string> {
    match key
    case Model => Success(f.(model := Some(v)))
    case Texture => Success(f.(texture := Some(v)))
    case JarFile => Success(f.(jarPath := v))
    case Scale => if parse(v).None? then Failure(v) else Success(f.(scale := parse(v).value))
    case Reflectivity => if parse(v).None? then Failure(v) else Success(f.(reflectivity := parse(v).value))
    case ShineDampening => if parse(v).None? then Failure(v) else Success(f.(shineDampening := parse(v).value))
  }

  /** The effect of reading one line. */
  function Step(f: Fields, line: string, parse: FloatParser): Result<Fields, string> {
    match Assignment(line)
    case None => Success(f)
    case Some((key, v)) => Store(f, key, v, parse)
  }

  /** The working variables after reading all of `lines`, or the text of the first numeric value that failed. */
  function Scan(lines: seq<string>, parse: FloatParser): Result<Fields, string> {
    if lines == [] then Success(Defaults)
    else
      match Scan(lines[..|lines| - 1], parse)
      case Failure(t) => Failure(t)
      case Success(f) => Step(f, lines[|lines| - 1], parse)
  }

  /** The three ways a load ends: a descriptor, null, or an escaping number-format exception. */
  datatype LoadOutcome = Loaded(descriptor: EntityDescriptor) | NoDescriptor | NumberFormatError(text: string)

  /** The outcome of loading a descriptor file with the given lines. */
  function Load(lines: seq<string>, parse: FloatParser): LoadOutcome {
    match Scan(lines, parse)
    case Failure(t) => NumberFormatError(t)
    case Success(f) =>
      if f.model.None? || f.texture.None? then NoDescriptor
      else Loaded(EntityDescriptor(f.model.value, f.texture.value, f.jarPath, f.scale, f.reflectivity, f.shineDampening))
  }

  /** The file reader's loop, over lines already read from the file. */
  method LoadEntityDescriptor(lines: seq<string>, parse: FloatParser) returns (r: LoadOutcome)
    ensures r == Load(lines, parse)
  {
    var fields := Defaults;
    var i := 0;
    while i < |lines|
      invariant 0 <= i <= |lines|
      invariant Scan(lines[..i], parse) == Success(fields)
    {
      ReadOneLine(lines, i, fields, parse);
      var next := ReadLine(lines[i], fields, parse);
      if next.Failure? {
        FailureSticks(lines, i + 1, parse);
        return NumberFormatError(next.error);
      }
      fields := next.value;
      i := i + 1;
    }
    assert lines[..i] == lines;
    if fields.model.None? || fields.texture.None? {
      return NoDescriptor;
    }
    r := Loaded(EntityDescriptor(fields.model.value, fields.texture.value, fields.jarPath,
                                 fields.scale, fields.reflectivity, fields.shineDampening));
  }

  /**
   * The body of the reader's loop for one line: split at the first '=', then the six-way key
   * chain; a numeric key's value goes through the float parser, and a value it rejects ends the
   * read with that value's text.
   */
  method ReadLine(line: string, f: Fields, parse: FloatParser) returns (r: Result<Fields, string>)
    ensures r == Step(f, line, parse)
  {
    var buf := SplitFirst(line);
    if buf.None? {
      return Success(f);
    }
    var (k, v) := buf.value;
    if EqualsIgnoreCase(k, "model") {
      r := Success(f.(model := Some(v)));
    } else if EqualsIgnoreCase(k, "texture") {
      r := Success(f.(texture := Some(v)));
    } else if EqualsIgnoreCase(k, "jarfile") {
      r := Success(f.(jarPath := v));
    } else if EqualsIgnoreCase(k, "scale") {
      var p := parse(v);
      if p.None? {
        return Failure(v);
      }
      r := Success(f.(scale := p.value));
    } else if EqualsIgnoreCase(k, "reflectivity") {
      var p := parse(v);
      if p.None? {
        return Failure(v);
      }
      r := Success(f.(reflectivity := p.value));
    } else if EqualsIgnoreCase(k, "shinedampening") {
      var p := parse(v);
      if p.None? {
        return Failure(v);
      }
      r := Success(f.(shineDampening := p.value));
    } else {
      r := Success(f);
    }
  }

  /** Reading line i after a successful read of the lines before it. */
  lemma ReadOneLine(lines: seq<string>, i: nat, f: Fields, parse: FloatParser)
    requires i < |lines|
    requires Scan(lines[..i], parse) == Success(f)
    ensures Scan(lines[..i + 1], parse) == Step(f, lines[i], parse)
  {
    assert lines[..i + 1][..i] == lines[..i];
  }

  /** A failed prefix fails the whole file, with the same text: later lines are never read. */
  lemma {:induction false} FailureSticks(lines: seq<string>, n: nat, parse: FloatParser)
    requires n <= |lines|
    requires Scan(lines[..n], parse).Failure?
    ensures Scan(lines, parse) == Scan(lines[..n], parse)
  {
    if n < |lines| {
      var m := |lines| - 1;
      assert lines[..m][..n] == lines[..n];
      FailureSticks(lines[..m], n, parse);
    } else {
      assert lines[..n] == lines;
    }
  }

  /** Reading one more line: the earlier lines' outcome, then that line's step. */
  lemma ScanSnoc(s: seq<string>, line: string, parse: FloatParser)
    ensures Scan(s + [line], parse) ==
      match Scan(s, parse)
      case Failure(t) => Failure(t)
      case Success(f) => Step(f, line, parse)
  {
    assert (s + [line])[..|s|] == s;
  }

  /** `pre + [line] + post` with a non-empty `post`, seen as one more line after a shorter file. */
  lemma Regroup(pre: seq<string>, line: string, post: seq<string>)
    requires post != []
    ensures pre + [line] + post == (pre + [line] + post[..|post| - 1]) + [post[|post| - 1]]
    ensures pre + post == (pre + post[..|post| - 1]) + [post[|post| - 1]]
  {
    assert post == post[..|post| - 1] + [post[|post| - 1]];
  }

  /**
   * The split is at the FIRST `=`: whenever the key part has no `=`, the value is everything after it,
   * further `=` signs included.
   */
  lemma {:induction false} SplitJoin(k: string, v: string)
    requires '=' !in k
    ensures SplitFirst(k + "=" + v) == Some((k, v))
  {
    if k == [] {
      assert k + "=" + v == ['='] + v;
    } else {
      assert (k + "=" + v)[1..] == k[1..] + "=" + v;
      SplitJoin(k[1..], v);
      assert [k[0]] + k[1..] == k;
    }
  }

  /** A line that assigns no recognised key can be removed without changing the outcome. */
  lemma {:induction false} InertLineIgnored(pre: seq<string>, line: string, post: seq<string>, parse: FloatParser)
    requires Assignment(line).None?
    ensures Scan(pre + [line] + post, parse) == Scan(pre + post, parse)
  {
    if post == [] {
      ScanSnoc(pre, line, parse);
      assert pre + [line] + post == pre + [line];
      assert pre + post == pre;
    } else {
      var q, x := post[..|post| - 1], post[|post| - 1];
      Regroup(pre, line, post);
      InertLineIgnored(pre, line, q, parse);
      ScanSnoc(pre + [line] + q, x, parse);
      ScanSnoc(pre + q, x, parse);
    }
  }

  /** Lines without `=` are skipped and affect no field. */
  lemma LineWithoutEqualsIgnored(pre: seq<string>, line: string, post: seq<string>, parse: FloatParser)
    requires '=' !in line
    ensures Scan(pre + [line] + post, parse) == Scan(pre + post, parse)
  {
    InertLineIgnored(pre, line, post, parse);
  }

  /** A `key=value` line whose key is none of the six, in any case, is ignored. */
  lemma UnknownKeyIgnored(pre: seq<string>, k: string, v: string, post: seq<string>, parse: FloatParser)
    requires '=' !in k
    requires forall key: Key :: !EqualsIgnoreCase(k, KeyName(key))
    ensures Scan(pre + [k + "=" + v] + post, parse) == Scan(pre + post, parse)
  {
    SplitJoin(k, v);
    InertLineIgnored(pre, k + "=" + v, post, parse);
  }

  /** Two lines that ask for the same assignment are interchangeable. */
  lemma {:induction false} SameAssignmentSameScan(pre: seq<string>, l1: string, l2: string, post: seq<string>, parse: FloatParser)
    requires Assignment(l1) == Assignment(l2)
    ensures Scan(pre + [l1] + post, parse) == Scan(pre + [l2] + post, parse)
  {
    if post == [] {
      ScanSnoc(pre, l1, parse);
      ScanSnoc(pre, l2, parse);
      assert pre + [l1] + post == pre + [l1];
      assert pre + [l2] + post == pre + [l2];
    } else {
      var q, x := post[..|post| - 1], post[|post| - 1];
      Regroup(pre, l1, post);
      Regroup(pre, l2, post);
      SameAssignmentSameScan(pre, l1, l2, q, parse);
      ScanSnoc(pre + [l1] + q, x, parse);
      ScanSnoc(pre + [l2] + q, x, parse);
    }
  }

  /** Keys that differ only in ASCII case select the same field. */
  lemma MatchKeyIgnoresCase(k1: string, k2: string)
    requires EqualsIgnoreCase(k1, k2)
    ensures MatchKey(k1) == MatchKey(k2)
  {
  }

  /** Key matching ignores case: spelling a key in other letter cases does not change the outcome. */
  lemma CaseInsensitiveKeys(pre: seq<string>, k1: string, k2: string, v: string, post: seq<string>, parse: FloatParser)
    requires '=' !in k1 && '=' !in k2
    requires EqualsIgnoreCase(k1, k2)
    ensures Scan(pre + [k1 + "=" + v] + post, parse) == Scan(pre + [k2 + "=" + v] + post, parse)
  {
    SplitJoin(k1, v);
    SplitJoin(k2, v);
    MatchKeyIgnoresCase(k1, k2);
    SameAssignmentSameScan(pre, k1 + "=" + v, k2 + "=" + v, post, parse);
  }

  /** A key spelled with a space in it matches no recognised key, since none of the six contains one. */
  lemma SpaceBlocksMatch(s: string, i: nat, key: Key)
    requires i < |s| && s[i] == ' '
    ensures !EqualsIgnoreCase(s, KeyName(key))
  {
    var n := KeyName(key);
    assert ' ' !in n;
    assert Lower(s)[i] == ' ';
    if |n| == |s| {
      assert Lower(n)[i] == LowerAscii(n[i]);
    }
  }

  /** Keys are not trimmed: a space before or after a recognised key makes the line unrecognised. */
  lemma PaddedKeyIgnored(k: string, v: string)
    requires '=' !in k
    ensures Assignment(" " + k + "=" + v).None?
    ensures Assignment(k + " =" + v).None?
  {
    SplitJoin(" " + k, v);
    assert k + " =" + v == (k + " ") + "=" + v;
    SplitJoin(k + " ", v);
    forall key: Key ensures !EqualsIgnoreCase(" " + k, KeyName(key)) && !EqualsIgnoreCase(k + " ", KeyName(key)) {
      SpaceBlocksMatch(" " + k, 0, key);
      SpaceBlocksMatch(k + " ", |k|, key);
    }
  }

  /** Reading one line leaves every field it does not assign as it was. */
  lemma StepKeepsOthers(f: Fields, line: string, key: Key, parse: FloatParser)
    requires !Assigns(line, key)
    requires Step(f, line, parse).Success?
    ensures Get(Step(f, line, parse).value, key) == Get(f, key)
  {
  }

  /**
   * The last line that assigns a key decides that key's value: the text after `=` for a text key,
   * the parsed number for a numeric one; and a loaded descriptor's getter returns it.
   */
  lemma {:induction false} LastOccurrenceWins(pre: seq<string>, line: string, post: seq<string>, key: Key, v: string, parse: FloatParser)
    requires Assignment(line) == Some((key, v))
    requires forall j :: 0 <= j < |post| ==> !Assigns(post[j], key)
    requires Scan(pre + [line] + post, parse).Success?
    ensures IsNumeric(key) ==> parse(v).Some? && Get(Scan(pre + [line] + post, parse).value, key) == Num(parse(v).value)
    ensures !IsNumeric(key) ==> Get(Scan(pre + [line] + post, parse).value, key) == Text(v)
    ensures Load(pre + [line] + post, parse).Loaded? ==>
      DescriptorValue(Load(pre + [line] + post, parse).descriptor, key) == Get(Scan(pre + [line] + post, parse).value, key)
  {
    if post == [] {
      ScanSnoc(pre, line, parse);
      assert pre + [line] + post == pre + [line];
    } else {
      var q, x := post[..|post| - 1], post[|post| - 1];
      Regroup(pre, line, post);
      ScanSnoc(pre + [line] + q, x, parse);
      LastOccurrenceWins(pre, line, q, key, v, parse);
      StepKeepsOthers(Scan(pre + [line] + q, parse).value, x, key, parse);
    }
  }

  /** A key no line assigns keeps its default: absent model or texture, empty jar path, scale 1, reflectivity 0, shine dampening 1. */
  lemma {:induction false} AbsentKeyKeepsDefault(lines: seq<string>, key: Key, parse: FloatParser)
    requires forall j :: 0 <= j < |lines| ==> !Assigns(lines[j], key)
    requires Scan(lines, parse).Success?
    ensures Get(Scan(lines, parse).value, key) == match key
      case Model => Absent
      case Texture => Absent
      case JarFile => Text("")
      case Scale => Num(1.0)
      case Reflectivity => Num(0.0)
      case ShineDampening => Num(1.0)
    ensures Load(lines, parse).Loaded? ==> DescriptorValue(Load(lines, parse).descriptor, key) == Get(Scan(lines, parse).value, key)
  {
    if lines != [] {
      var q, x := lines[..|lines| - 1], lines[|lines| - 1];
      assert lines == q + [x];
      ScanSnoc(q, x, parse);
      AbsentKeyKeepsDefault(q, key, parse);
      StepKeepsOthers(Scan(q, parse).value, x, key, parse);
    }
  }

  /** Some line assigns the key. */
  predicate Appears(lines: seq<string>, key: Key) {
    exists j :: 0 <= j < |lines| && Assigns(lines[j], key)
  }

  /** A line appears in `q + [x]` exactly when it appears in `q` or is `x`. */
  lemma AppearsSnoc(q: seq<string>, x: string, key: Key)
    ensures Appears(q + [x], key) <==> Appears(q, key) || Assigns(x, key)
  {
    if Appears(q + [x], key) && !Assigns(x, key) {
      var j :| 0 <= j < |q| + 1 && Assigns((q + [x])[j], key);
      assert (q + [x])[j] == q[j];
    }
    if Appears(q, key) {
      var j :| 0 <= j < |q| && Assigns(q[j], key);
      assert (q + [x])[j] == q[j];
    }
    if Assigns(x, key) {
      assert (q + [x])[|q|] == x;
    }
  }

  /** Reading one line makes a model (or texture) present exactly when it was already, or the line assigns it. */
  lemma StepPresence(f: Fields, line: string, key: Key, parse: FloatParser)
    requires key.Model? || key.Texture?
    requires Step(f, line, parse).Success?
    ensures Get(Step(f, line, parse).value, key) != Absent <==> Get(f, key) != Absent || Assigns(line, key)
  {
  }

  /** After a successful read, a model (or texture) is present exactly when some line assigned it. */
  lemma {:induction false} PresentIffAssigned(lines: seq<string>, key: Key, parse: FloatParser)
    requires key.Model? || key.Texture?
    requires Scan(lines, parse).Success?
    ensures Get(Scan(lines, parse).value, key) != Absent <==> Appears(lines, key)
  {
    if lines != [] {
      var q, x := lines[..|lines| - 1], lines[|lines| - 1];
      assert lines == q + [x];
      ScanSnoc(q, x, parse);
      PresentIffAssigned(q, key, parse);
      StepPresence(Scan(q, parse).value, x, key, parse);
      AppearsSnoc(q, x, key);
    }
  }

  /** The load yields null exactly when the file reads without a number error but lacks a model line or a texture line. */
  lemma NoDescriptorIffModelOrTextureMissing(lines: seq<string>, parse: FloatParser)
    ensures Load(lines, parse).NoDescriptor? <==>
      Scan(lines, parse).Success? && (!Appears(lines, Model) || !Appears(lines, Texture))
  {
    if Scan(lines, parse).Success? {
      PresentIffAssigned(lines, Model, parse);
      PresentIffAssigned(lines, Texture, parse);
    }
  }

  /** Line j is the first whose number the parser rejects. */
  predicate FirstBadNumberAt(lines: seq<string>, j: int, parse: FloatParser) {
    0 <= j < |lines| && BadNumber(lines[j], parse) &&
    forall i :: 0 <= i < j ==> !BadNumber(lines[i], parse)
  }

  /**
   * A malformed number is not caught: the load aborts exactly when some numeric line fails to parse,
   * and it reports the value of the first such line.
   */
  lemma {:induction false} NumberFormatErrorIff(lines: seq<string>, parse: FloatParser)
    ensures Scan(lines, parse).Failure? <==> exists j :: 0 <= j < |lines| && BadNumber(lines[j], parse)
    ensures Scan(lines, parse).Failure? ==>
      exists j :: FirstBadNumberAt(lines, j, parse) && Scan(lines, parse).error == Assignment(lines[j]).value.1
    ensures Load(lines, parse).NumberFormatError? <==> Scan(lines, parse).Failure?
  {
    if lines != [] {
      var q, x := lines[..|lines| - 1], lines[|lines| - 1];
      assert lines == q + [x];
      ScanSnoc(q, x, parse);
      NumberFormatErrorIff(q, parse);
      if Scan(q, parse).Failure? {
        var j :| FirstBadNumberAt(q, j, parse) && Scan(q, parse).error == Assignment(q[j]).value.1;
        assert lines[j] == q[j];
        forall i | 0 <= i < j ensures !BadNumber(lines[i], parse) {
          assert lines[i] == q[i];
        }
        assert FirstBadNumberAt(lines, j, parse);
      } else {
        forall i | 0 <= i < |q| ensures !BadNumber(lines[i], parse) {
          assert lines[i] == q[i];
        }
        if Scan(lines, parse).Failure? {
          assert FirstBadNumberAt(lines, |q|, parse);
        }
      }
    }
  }

  /** The value a line writes for its key: the text itself, or the number the parser makes of it. */
  function Written(key: Key, v: string, parse: FloatParser): FieldValue {
    if !IsNumeric(key) then Text(v)
    else if parse(v).Some? then Num(parse(v).value)
    else Absent
  }

  /** The value the last line assigning `key` writes, or the key's default when no line assigns it. */
  function LastValue(lines: seq<string>, key: Key, parse: FloatParser): FieldValue {
    if lines == [] then Get(Defaults, key)
    else if Assigns(lines[|lines| - 1], key) then Written(key, Assignment(lines[|lines| - 1]).value.1, parse)
    else LastValue(lines[..|lines| - 1], key, parse)
  }

  /** A line that assigns a key, read successfully, leaves the value it writes. */
  lemma StepWrites(f: Fields, line: string, key: Key, parse: FloatParser)
    requires Assigns(line, key)
    requires Step(f, line, parse).Success?
    ensures Get(Step(f, line, parse).value, key) == Written(key, Assignment(line).value.1, parse)
  {
  }

  /** A successful read leaves every key at its last written value, or at its default. */
  lemma {:induction false} ScanGivesLastValue(lines: seq<string>, key: Key, parse: FloatParser)
    requires Scan(lines, parse).Success?
    ensures Get(Scan(lines, parse).value, key) == LastValue(lines, key, parse)
  {
    if lines != [] {
      var q, x := lines[..|lines| - 1], lines[|lines| - 1];
      assert lines == q + [x];
      ScanSnoc(q, x, parse);
      ScanGivesLastValue(q, key, parse);
      if Assigns(x, key) {
        StepWrites(Scan(q, parse).value, x, key, parse);
      } else {
        StepKeepsOthers(Scan(q, parse).value, x, key, parse);
      }
    }
  }

  /** In `a + b` the last value of a key comes from `b` when `b` assigns it, and from `a` otherwise. */
  lemma {:induction false} LastValueAppend(a: seq<string>, b: seq<string>, key: Key, parse: FloatParser)
    ensures LastValue(a + b, key, parse) == if Appears(b, key) then LastValue(b, key, parse) else LastValue(a, key, parse)
  {
    if b == [] {
      assert a + b == a;
    } else {
      var q, x := b[..|b| - 1], b[|b| - 1];
      assert b == q + [x];
      assert a + b == (a + q) + [x];
      assert (a + b)[..|a + b| - 1] == a + q;
      AppearsSnoc(q, x, key);
      LastValueAppend(a, q, key, parse);
    }
  }

  /** Two reader states that agree on every key are the same state. */
  lemma FieldsFromValues(f: Fields, g: Fields)
    requires forall key: Key :: Get(f, key) == Get(g, key)
    ensures f == g
  {
    assert Get(f, Model) == Get(g, Model);
    assert Get(f, Texture) == Get(g, Texture);
    assert Get(f, JarFile) == Get(g, JarFile);
    assert Get(f, Scale) == Get(g, Scale);
    assert Get(f, Reflectivity) == Get(g, Reflectivity);
    assert Get(f, ShineDampening) == Get(g, ShineDampening);
  }

  /** A file whose lines are written out twice, one copy after the other, loads to the same outcome as the file itself. */
  lemma DoubledFileLoadsSame(lines: seq<string>, parse: FloatParser)
    ensures Load(lines + lines, parse) == Load(lines, parse)
  {
    var n := |lines|;
    assert (lines + lines)[..n] == lines;
    if Scan(lines, parse).Failure? {
      FailureSticks(lines + lines, n, parse);
    } else {
      NumberFormatErrorIff(lines, parse);
      NumberFormatErrorIff(lines + lines, parse);
      forall j | 0 <= j < 2 * n ensures !BadNumber((lines + lines)[j], parse) {
        if j < n {
          assert (lines + lines)[j] == lines[j];
        } else {
          assert (lines + lines)[j] == lines[j - n];
        }
      }
      forall key: Key ensures Get(Scan(lines + lines, parse).value, key) == Get(Scan(lines, parse).value, key) {
        ScanGivesLastValue(lines, key, parse);
        ScanGivesLastValue(lines + lines, key, parse);
        LastValueAppend(lines, lines, key, parse);
      }
      FieldsFromValues(Scan(lines + lines, parse).value, Scan(lines, parse).value);
    }
  }
}

/** The objects built from one line of a Wavefront OBJ file: positions
    (`v`), texture coordinates (`vt`), normals (`vn`) and faces (`f`) whose
    corners are `vertex/texture/normal` index triples. */
module LineObjects {
  import opened Wrappers
  import opened Numbers
  import Split

  /** The exceptions the line constructors throw. */
  datatype ParseError =
    | WrongArity(expected: nat, got: nat)
    | BadNumber(cause: ConversionError)
    | MissingVertexReference(arg: string)
    | TooManyReferences(arg: string)
    | UnhandledPolygon(corners: nat)
    | InconsistentFace(arg: string)

  datatype Vertex = Vertex(x: Scalar, y: Scalar, z: Scalar)
  datatype Normal = Normal(i: Scalar, j: Scalar, k: Scalar)
  datatype VertexTexture = VertexTexture(u: Scalar, v: Scalar)

  /** One face corner; indices are 1-based in the file and kept as read. */
  datatype Indices = Indices(vertex: nat, texture: Option<nat>, normal: Option<nat>)

  datatype Face = Face(vertices: seq<Indices>)

  /** Which optional references a corner carries. */
  datatype Presence = Presence(texture: bool, normal: bool)

  function PresenceOf(ix: Indices): Presence {
    Presence(ix.texture.Some?, ix.normal.Some?)
  }

  /** Every token of `args` is accepted by `std::stof`. */
  predicate AllFloats(args: seq<string>) {
    forall i :: 0 <= i < |args| ==> FloatConverts(args[i])
  }

  function Float(s: string): (r: Result<Scalar, ParseError>)
    ensures r.Ok? <==> FloatConverts(s)
    ensures r.Ok? ==> r.value == Scalar(s)
  {
    match ParseFloat(s)
    case Ok(x) => Ok(x)
    case Err(e) => Err(BadNumber(e))
  }

  /** The tokens converted left to right by `std::stof`; the first one it
      rejects gives the error. */
  function Floats(args: seq<string>): (r: Result<seq<Scalar>, ParseError>)
    ensures r.Ok? <==> AllFloats(args)
    ensures r.Ok? ==> |r.value| == |args| && forall i :: 0 <= i < |args| ==> r.value[i] == Scalar(args[i])
  {
    if args == [] then Ok([])
    else
      var x :- Float(args[0]);
      var rest :- Floats(args[1..]);
      assert forall i :: 1 <= i < |args| ==> args[1..][i - 1] == args[i];
      Ok([x] + rest)
  }

  /** `v x y z`: exactly three coordinates, converted left to right. */
  function ParseVertex(args: seq<string>): (r: Result<Vertex, ParseError>)
    ensures |args| != 3 ==> r == Err(WrongArity(3, |args|))
    ensures r.Ok? <==> |args| == 3 && AllFloats(args)
    ensures r.Ok? ==> r.value == Vertex(Scalar(args[0]), Scalar(args[1]), Scalar(args[2]))
  {
    if |args| != 3 then Err(WrongArity(3, |args|))
    else
      var xs :- Floats(args);
      Ok(Vertex(xs[0], xs[1], xs[2]))
  }

  /** `vn i j k`: exactly three components. */
  function ParseNormal(args: seq<string>): (r: Result<Normal, ParseError>)
    ensures |args| != 3 ==> r == Err(WrongArity(3, |args|))
    ensures r.Ok? <==> |args| == 3 && AllFloats(args)
    ensures r.Ok? ==> r.value == Normal(Scalar(args[0]), Scalar(args[1]), Scalar(args[2]))
  {
    if |args| != 3 then Err(WrongArity(3, |args|))
    else
      var xs :- Floats(args);
      Ok(Normal(xs[0], xs[1], xs[2]))
  }

  /** `vt u v`: exactly two coordinates. */
  function ParseVertexTexture(args: seq<string>): (r: Result<VertexTexture, ParseError>)
    ensures |args| != 2 ==> r == Err(WrongArity(2, |args|))
    ensures r.Ok? <==> |args| == 2 && AllFloats(args)
    ensures r.Ok? ==> r.value == VertexTexture(Scalar(args[0]), Scalar(args[1]))
  {
    if |args| != 2 then Err(WrongArity(2, |args|))
    else
      var xs :- Floats(args);
      Ok(VertexTexture(xs[0], xs[1]))
  }

  function Index(s: string): (r: Result<nat, ParseError>)
    ensures r.Ok? <==> ParseIndex(s).Ok?
    ensures r.Ok? ==> r.value == ParseIndex(s).value
  {
    match ParseIndex(s)
    case Ok(n) => Ok(n)
    case Err(e) => Err(BadNumber(e))
  }

  /** Every reference fits in the `uint32_t` fields of a corner. */
  predicate InRange(ix: Indices) {
    && ix.vertex < UInt32Range
    && (ix.texture.Some? ==> ix.texture.value < UInt32Range)
    && (ix.normal.Some? ==> ix.normal.value < UInt32Range)
  }

  /** An optional reference: absent when the field is missing or empty. */
  function OptionalIndex(present: bool, field: string): (r: Result<Option<nat>, ParseError>)
    ensures !present || field == "" ==> r == Ok(None)
    ensures present && field != "" ==> (r.Ok? <==> ParseIndex(field).Ok?)
    ensures present && field != "" && r.Ok? ==> r.value == Some(ParseIndex(field).value)
  {
    if present && field != "" then
      var n :- Index(field);
      Ok(Some(n))
    else Ok(None)
  }

  /** One face corner `v`, `v/t`, `v//n` or `v/t/n`, split on `/`. The vertex
      reference is mandatory, at most three fields are allowed, and an empty
      optional field means the reference is absent. */
  function ParseIndices(arg: string): (r: Result<Indices, ParseError>)
    ensures r.Ok? ==> InRange(r.value)
    ensures arg == "" || arg[0] == '/' ==> r == Err(MissingVertexReference(arg))
    ensures arg != "" && '/' !in arg ==> (r.Ok? <==> ParseIndex(arg).Ok?)
    ensures arg != "" && '/' !in arg && r.Ok? ==> r.value == Indices(ParseIndex(arg).value, None, None)
  {
    var fields := Split.Split(arg, "/");
    FirstField(arg, fields);
    ReadFields(arg, fields)
  }

  /** A corner is accepted exactly when its `/`-separated fields pass the
      checks and convert; its references are the converted fields, a
      texture exactly when the second field is non-empty and a normal
      exactly when a non-empty third field is there. */
  lemma ParseIndicesFields(arg: string)
    ensures var values := Split.Split(arg, "/");
      && (ParseIndices(arg).Ok? <==> FieldsConvert(values))
      && (ParseIndices(arg).Ok? ==>
            var ix := ParseIndices(arg).value;
            && ParseIndex(values[0]) == Ok(ix.vertex)
            && (ix.texture.Some? <==> |values| >= 2 && values[1] != "")
            && (ix.normal.Some? <==> |values| == 3 && values[2] != "")
            && (ix.texture.Some? ==> ParseIndex(values[1]) == Ok(ix.texture.value))
            && (ix.normal.Some? ==> ParseIndex(values[2]) == Ok(ix.normal.value)))
  {
  }

  /** The first `/`-separated field is empty exactly when the corner is empty
      or starts with `/`, and it is the whole corner when there is no `/`. */
  lemma FirstField(arg: string, fields: seq<string>)
    requires fields == Split.Split(arg, "/")
    ensures arg == "" || arg[0] == '/' ==> fields[0] == ""
    ensures '/' !in arg ==> fields == [arg]
  {
    if |fields| > 1 {
      assert arg == fields[0] + "/" + Split.Join(fields[1..], "/");
    }
    if fields[0] != "" {
      assert Split.Free(fields[0], "/");
      assert !Split.OccursAt(fields[0], "/", 0);
      assert arg[0] == fields[0][0];
    }
    if '/' !in arg {
      assert Split.Free(arg, "/");
      Split.SplitWithoutDelimiter(arg, "/");
    }
  }

  /** The fields of a corner pass the constructor's checks: one to three
      fields, a non-empty first one, and every non-empty field converts. */
  predicate FieldsConvert(values: seq<string>) {
    && 0 < |values| <= 3
    && values[0] != "" && ParseIndex(values[0]).Ok?
    && (|values| >= 2 && values[1] != "" ==> ParseIndex(values[1]).Ok?)
    && (|values| == 3 && values[2] != "" ==> ParseIndex(values[2]).Ok?)
  }

  /** The checks and conversions applied to the `/`-separated fields of a
      corner. */
  function ReadFields(arg: string, values: seq<string>): (r: Result<Indices, ParseError>)
    ensures r.Ok? ==> InRange(r.value)
    ensures r.Ok? <==> FieldsConvert(values)
    ensures r.Ok? && r.value.texture.Some? ==> |values| >= 2 && ParseIndex(values[1]) == Ok(r.value.texture.value)
    ensures r.Ok? && r.value.normal.Some? ==> |values| == 3 && ParseIndex(values[2]) == Ok(r.value.normal.value)
    ensures 0 < |values| <= 3 && values[0] != "" && ParseIndex(values[0]).Err? ==>
      r == Err(BadNumber(ParseIndex(values[0]).error))
    ensures && 0 < |values| <= 3 && values[0] != "" && ParseIndex(values[0]).Ok?
            && |values| >= 2 && values[1] != "" && ParseIndex(values[1]).Err? ==>
      r == Err(BadNumber(ParseIndex(values[1]).error))
    ensures && 0 < |values| <= 3 && values[0] != "" && ParseIndex(values[0]).Ok?
            && (|values| >= 2 && values[1] != "" ==> ParseIndex(values[1]).Ok?)
            && |values| == 3 && values[2] != "" && ParseIndex(values[2]).Err? ==>
      r == Err(BadNumber(ParseIndex(values[2]).error))
    ensures |values| == 0 || values[0] == "" ==> r == Err(MissingVertexReference(arg))
    ensures |values| > 3 && values[0] != "" ==> r == Err(TooManyReferences(arg))
    ensures r.Ok? ==> 0 < |values| <= 3 && ParseIndex(values[0]) == Ok(r.value.vertex)
    ensures r.Ok? ==> (r.value.texture.Some? <==> |values| >= 2 && values[1] != "")
    ensures r.Ok? ==> (r.value.normal.Some? <==> |values| == 3 && values[2] != "")
  {
    if |values| == 0 || values[0] == "" then Err(MissingVertexReference(arg))
    else if |values| > 3 then Err(TooManyReferences(arg))
    else
      var vertex :- Index(values[0]);
      var texture :- OptionalIndex(|values| >= 2, if |values| >= 2 then values[1] else "");
      var normal :- OptionalIndex(|values| == 3, if |values| == 3 then values[2] else "");
      Ok(Indices(vertex, texture, normal))
  }

  /** `Indices::validate`: the corner carries exactly the required references. */
  predicate Validate(ix: Indices, requireTexture: bool, requireNormal: bool)
    ensures Validate(ix, requireTexture, requireNormal) <==> PresenceOf(ix) == Presence(requireTexture, requireNormal)
  {
    ix.texture.Some? == requireTexture && ix.normal.Some? == requireNormal
  }

  /** The conversion of every corner. Converting has no side effect, so
      converting all corners first and then scanning them in order meets the
      same first failure as the constructor's single loop. */
  function ParsedCorners(args: seq<string>): (rs: seq<Result<Indices, ParseError>>)
    ensures |rs| == |args|
    ensures forall k :: 0 <= k < |args| ==> rs[k] == ParseIndices(args[k])
  {
    seq(|args|, k requires 0 <= k < |args| => ParseIndices(args[k]))
  }

  ghost predicate AllOk(rs: seq<Result<Indices, ParseError>>) {
    forall k :: 0 <= k < |rs| ==> rs[k].Ok?
  }

  ghost function Values(rs: seq<Result<Indices, ParseError>>): (cs: seq<Indices>)
    requires AllOk(rs)
    ensures |cs| == |rs|
  {
    seq(|rs|, k requires 0 <= k < |rs| => rs[k].value)
  }

  /** Every corner carries the same references as the first one. */
  ghost predicate Consistent(cs: seq<Indices>) {
    forall i :: 0 <= i < |cs| ==> PresenceOf(cs[i]) == PresenceOf(cs[0])
  }

  /** What the face constructor accepts: a triangle or a quad whose corners all
      parse and agree on which references they carry. */
  ghost predicate FaceAccepted(args: seq<string>) {
    && (|args| == 3 || |args| == 4)
    && AllOk(ParsedCorners(args))
    && Consistent(Values(ParsedCorners(args)))
  }

  /** `f a b c [d]`: triangles and quads only; the first corner fixes which
      optional references every corner must carry, and corners are checked in
      order, so the first failing corner decides the error. */
  function ParseFace(args: seq<string>): (r: Result<Face, ParseError>)
    ensures |args| != 3 && |args| != 4 ==> r == Err(UnhandledPolygon(|args|))
    ensures r.Ok? <==> FaceAccepted(args)
    ensures r.Ok? ==> |r.value.vertices| == |args|
    ensures r.Ok? ==> forall k :: 0 <= k < |args| ==> ParseIndices(args[k]) == Ok(r.value.vertices[k])
  {
    if |args| != 3 && |args| != 4 then Err(UnhandledPolygon(|args|))
    else
      var rs := ParsedCorners(args);
      var r := FaceLoop(rs, args, 0, Presence(false, false), []);
      assert r.Ok? ==> forall k :: 0 <= k < |args| ==> rs[k] == Ok(r.value.vertices[k]);
      r
  }

  /** The constructor's loop from corner `i` on, with the corners `acc`
      already accepted and `req` the references they fixed. */
  function FaceLoop(rs: seq<Result<Indices, ParseError>>, args: seq<string>, i: nat, req: Presence, acc: seq<Indices>)
    : (r: Result<Face, ParseError>)
    requires |rs| == |args| && i <= |args| && |acc| == i
    requires forall k :: 0 <= k < i ==> rs[k] == Ok(acc[k])
    requires i > 0 ==> req == PresenceOf(acc[0])
    requires forall k :: 0 <= k < i ==> PresenceOf(acc[k]) == req
    ensures r.Ok? <==> AllOk(rs) && Consistent(Values(rs))
    ensures r.Ok? ==> r.value.vertices == Values(rs)
    decreases |args| - i
  {
    if i == |args| then
      AllAccepted(rs, req, acc);
      Ok(Face(acc))
    else
      match rs[i]
      case Err(e) =>
        Err(e)
      case Ok(ix) =>
        var req' := if i == 0 then PresenceOf(ix) else req;
        if !Validate(ix, req'.texture, req'.normal) then
          InconsistentCorner(rs, i, acc, ix);
          Err(InconsistentFace(args[i]))
        else
          FaceLoop(rs, args, i + 1, req', acc + [ix])
  }

  lemma AllAccepted(rs: seq<Result<Indices, ParseError>>, req: Presence, acc: seq<Indices>)
    requires |acc| == |rs|
    requires forall k :: 0 <= k < |rs| ==> rs[k] == Ok(acc[k])
    requires forall k :: 0 <= k < |rs| ==> PresenceOf(acc[k]) == req
    ensures AllOk(rs)
    ensures Values(rs) == acc
    ensures Consistent(acc)
  {
  }

  /** A corner that disagrees with the first one makes the face inconsistent. */
  lemma InconsistentCorner(rs: seq<Result<Indices, ParseError>>, i: nat, acc: seq<Indices>, ix: Indices)
    requires 0 < i < |rs| && |acc| == i
    requires forall k :: 0 <= k < i ==> rs[k] == Ok(acc[k])
    requires rs[i] == Ok(ix)
    requires PresenceOf(ix) != PresenceOf(acc[0])
    ensures !(AllOk(rs) && Consistent(Values(rs)))
  {
    if AllOk(rs) {
      var cs := Values(rs);
      assert cs[i] == ix && cs[0] == acc[0];
    }
  }

  // ---------------------------------------------------------------------------
  // Writing corners back

  /** The shortest text that `ParseIndices` reads as `ix`. */
  function FormatIndices(ix: Indices): string {
    Split.Join(Fields(ix), "/")
  }

  function Fields(ix: Indices): seq<string> {
    var v := ShowNat(ix.vertex);
    var t := if ix.texture.Some? then ShowNat(ix.texture.value) else "";
    match (ix.texture, ix.normal)
    case (None, None) => [v]
    case (Some(_), None) => [v, t]
    case (_, Some(n)) => [v, t, ShowNat(n)]
  }

  /** Every corner that fits in 32 bits is read back from its text. */
  lemma FormatParseIndices(ix: Indices)
    requires InRange(ix)
    ensures ParseIndices(FormatIndices(ix)) == Ok(ix)
  {
    FieldsSplit(ix);
    ParseFields(FormatIndices(ix), ix);
  }

  lemma FieldsSplit(ix: Indices)
    ensures Split.Split(FormatIndices(ix), "/") == Fields(ix)
  {
    var fs := Fields(ix);
    forall i, j | 0 <= i < |fs| && 0 <= j < |fs[i]| ensures fs[i][j] != '/' {
      assert IsDigit(fs[i][j]);
    }
    Split.SplitJoin(fs, "/");
  }

  lemma ParseFields(arg: string, ix: Indices)
    requires InRange(ix)
    requires Split.Split(arg, "/") == Fields(ix)
    ensures ParseIndices(arg) == Ok(ix)
  {
    ReadFormattedFields(arg, ix);
  }

  lemma ReadFormattedFields(arg: string, ix: Indices)
    requires InRange(ix)
    ensures ReadFields(arg, Fields(ix)) == Ok(ix)
  {
    var v := ShowNat(ix.vertex);
    ParseIndexShowNat(ix.vertex);
    match (ix.texture, ix.normal)
    case (None, None) =>
      ReadVertexOnly(arg, v, ix.vertex);
    case (Some(t), None) =>
      ParseIndexShowNat(t);
      ReadVertexTexture(arg, v, ix.vertex, ShowNat(t), t);
    case (None, Some(n)) =>
      ParseIndexShowNat(n);
      ReadWithNormal(arg, v, ix.vertex, "", None, ShowNat(n), n);
    case (Some(t), Some(n)) =>
      ParseIndexShowNat(t);
      ParseIndexShowNat(n);
      ReadWithNormal(arg, v, ix.vertex, ShowNat(t), Some(t), ShowNat(n), n);
  }

  lemma ReadVertexOnly(arg: string, vs: string, v: nat)
    requires vs != "" && ParseIndex(vs) == Ok(v)
    ensures ReadFields(arg, [vs]) == Ok(Indices(v, None, None))
  {
  }

  lemma ReadVertexTexture(arg: string, vs: string, v: nat, ts: string, t: nat)
    requires vs != "" && ParseIndex(vs) == Ok(v)
    requires ts != "" && ParseIndex(ts) == Ok(t)
    ensures ReadFields(arg, [vs, ts]) == Ok(Indices(v, Some(t), None))
  {
  }

  lemma ReadWithNormal(arg: string, vs: string, v: nat, ts: string, t: Option<nat>, ns: string, n: nat)
    requires vs != "" && ParseIndex(vs) == Ok(v)
    requires t.None? ==> ts == ""
    requires t.Some? ==> ts != "" && ParseIndex(ts) == Ok(t.value)
    requires ns != "" && ParseIndex(ns) == Ok(n)
    ensures ReadFields(arg, [vs, ts, ns]) == Ok(Indices(v, t, Some(n)))
  {
    var values := [vs, ts, ns];
    assert FieldsConvert(values);
    var r := ReadFields(arg, values);
    assert r.value.vertex == v && r.value.normal == Some(n);
    if t.Some? {
      assert r.value.texture == t;
    } else {
      assert r.value.texture.None?;
    }
  }

  /** Every accepted corner is in range: so the round trip covers all of
      them, and a corner is determined by what it parses to. */
  lemma ParseFormatIndices(arg: string)
    requires ParseIndices(arg).Ok?
    ensures ParseIndices(FormatIndices(ParseIndices(arg).value)) == ParseIndices(arg)
  {
    FormatParseIndices(ParseIndices(arg).value);
  }

  // ---------------------------------------------------------------------------
  // Examples

  /** `1//3`: an empty middle field means no texture reference. */
  lemma VertexAndNormalOnly()
    ensures ParseIndices("1//3") == Ok(Indices(1, None, Some(3)))
  {
    Split.SplitJoin(["1", "", "3"], "/");
    assert Split.Join(["1", "", "3"], "/") == "1//3";
    SmallIndex(1);
    SmallIndex(3);
    ReadWithNormal("1//3", "1", 1, "", None, "3", 3);
  }

  /** A single decimal digit reads as its value. */
  lemma SmallIndex(n: nat)
    requires n < 10
    ensures ParseIndex([DigitChar(n)]) == Ok(n)
  {
    ParseIndexShowNat(n);
  }

  /** Four fields are too many. */
  lemma FourFieldsRejected()
    ensures ParseIndices("1/2/3/4") == Err(TooManyReferences("1/2/3/4"))
  {
    Split.SplitJoin(["1", "2", "3", "4"], "/");
    assert Split.Join(["1", "2", "3", "4"], "/") == "1/2/3/4";
  }

  /** A corner without its vertex reference is rejected. */
  lemma MissingVertexRejected()
    ensures ParseIndices("/2") == Err(MissingVertexReference("/2"))
  {
    Split.SplitJoin(["", "2"], "/");
    assert Split.Join(["", "2"], "/") == "/2";
  }

  /** A face whose second corner disagrees with the first is reported at the
      second corner, whatever follows. */
  lemma SecondCornerInconsistent(args: seq<string>, first: Indices, second: Indices)
    requires |args| == 3 || |args| == 4
    requires ParseIndices(args[0]) == Ok(first)
    requires ParseIndices(args[1]) == Ok(second)
    requires PresenceOf(first) != PresenceOf(second)
    ensures ParseFace(args) == Err(InconsistentFace(args[1]))
  {
    var rs := ParsedCorners(args);
    LoopStopsAtSecond(rs, args, first, second);
  }

  lemma LoopStopsAtSecond(rs: seq<Result<Indices, ParseError>>, args: seq<string>, first: Indices, second: Indices)
    requires |rs| == |args| >= 2
    requires rs[0] == Ok(first) && rs[1] == Ok(second)
    requires PresenceOf(first) != PresenceOf(second)
    ensures FaceLoop(rs, args, 0, Presence(false, false), []) == Err(InconsistentFace(args[1]))
  {
    assert FaceLoop(rs, args, 1, PresenceOf(first), [first]) == Err(InconsistentFace(args[1]));
    assert FaceLoop(rs, args, 0, Presence(false, false), []) == FaceLoop(rs, args, 1, PresenceOf(first), [first]);
  }

  /** Each argument reads as the corner at the same position. */
  ghost predicate CornersParse(args: seq<string>, cs: seq<Indices>) {
    |args| == |cs| && forall k :: 0 <= k < |args| ==> ParseIndices(args[k]) == Ok(cs[k])
  }

  lemma OneCornerParses(a: string, ca: Indices)
    requires ParseIndices(a) == Ok(ca)
    ensures CornersParse([a], [ca])
  {
  }

  lemma CornersParseAppend(args: seq<string>, cs: seq<Indices>, a: string, ca: Indices)
    requires CornersParse(args, cs) && ParseIndices(a) == Ok(ca)
    ensures CornersParse(args + [a], cs + [ca])
  {
  }

  /** A triangle or a quad whose corners all parse and carry the same
      references is accepted, with those corners in order. */
  lemma ConsistentFaceAccepted(args: seq<string>, cs: seq<Indices>)
    requires |args| == 3 || |args| == 4
    requires CornersParse(args, cs)
    requires forall k :: 0 <= k < |cs| ==> PresenceOf(cs[k]) == PresenceOf(cs[0])
    ensures ParseFace(args) == Ok(Face(cs))
  {
    var rs := ParsedCorners(args);
    assert AllOk(rs);
    assert Values(rs) == cs;
    assert ParseFace(args).value.vertices == cs;
  }

  /** A triangle whose three corners parse and agree is accepted. */
  lemma TriangleAccepted(a: string, b: string, c: string, ca: Indices, cb: Indices, cc: Indices)
    requires ParseIndices(a) == Ok(ca) && ParseIndices(b) == Ok(cb) && ParseIndices(c) == Ok(cc)
    requires PresenceOf(ca) == PresenceOf(cb) == PresenceOf(cc)
    ensures ParseFace([a, b, c]) == Ok(Face([ca, cb, cc]))
  {
    OneCornerParses(a, ca);
    Displays(a, b, c, a);
    Displays(ca, cb, cc, ca);
    CornersParseAppend([a], [ca], b, cb);
    CornersParseAppend([a, b], [ca, cb], c, cc);
    ThreeCornersAgree(ca, cb, cc);
    ConsistentFaceAccepted([a, b, c], [ca, cb, cc]);
  }

  /** A quad whose four corners parse and agree is accepted. */
  lemma QuadAccepted(a: string, b: string, c: string, d: string, ca: Indices, cb: Indices, cc: Indices, cd: Indices)
    requires ParseIndices(a) == Ok(ca) && ParseIndices(b) == Ok(cb) && ParseIndices(c) == Ok(cc) && ParseIndices(d) == Ok(cd)
    requires PresenceOf(ca) == PresenceOf(cb) == PresenceOf(cc) == PresenceOf(cd)
    ensures ParseFace([a, b, c, d]) == Ok(Face([ca, cb, cc, cd]))
  {
    OneCornerParses(a, ca);
    Displays(a, b, c, d);
    Displays(ca, cb, cc, cd);
    CornersParseAppend([a], [ca], b, cb);
    CornersParseAppend([a, b], [ca, cb], c, cc);
    CornersParseAppend([a, b, c], [ca, cb, cc], d, cd);
    FourCornersAgree(ca, cb, cc, cd);
    ConsistentFaceAccepted([a, b, c, d], [ca, cb, cc, cd]);
  }

  /** Short sequence displays built one element at a time. */
  lemma Displays<T>(a: T, b: T, c: T, d: T)
    ensures [a] + [b] == [a, b]
    ensures [a, b] + [c] == [a, b, c]
    ensures [a, b, c] + [d] == [a, b, c, d]
  {
  }

  lemma ThreeCornersAgree(ca: Indices, cb: Indices, cc: Indices)
    requires PresenceOf(ca) == PresenceOf(cb) == PresenceOf(cc)
    ensures forall k :: 0 <= k < |[ca, cb, cc]| ==> PresenceOf([ca, cb, cc][k]) == PresenceOf([ca, cb, cc][0])
  {
  }

  lemma FourCornersAgree(ca: Indices, cb: Indices, cc: Indices, cd: Indices)
    requires PresenceOf(ca) == PresenceOf(cb) == PresenceOf(cc) == PresenceOf(cd)
    ensures forall k :: 0 <= k < |[ca, cb, cc, cd]| ==> PresenceOf([ca, cb, cc, cd][k]) == PresenceOf([ca, cb, cc, cd][0])
  {
  }

  /** A corner of one decimal digit is that vertex reference alone. */
  lemma DigitCorner(n: nat)
    requires n < 10
    ensures ParseIndices([DigitChar(n)]) == Ok(Indices(n, None, None))
  {
    var c := DigitChar(n);
    SmallIndex(n);
    assert c != '/';
    PlainCorner([c], n);
  }

  /** A corner without `/` is its vertex reference alone. */
  lemma PlainCorner(arg: string, v: nat)
    requires arg != "" && forall k :: 0 <= k < |arg| ==> arg[k] != '/'
    requires ParseIndex(arg) == Ok(v)
    ensures ParseIndices(arg) == Ok(Indices(v, None, None))
  {
    assert '/' !in arg;
  }

  /** `f 1/1 2 3`: the first corner requires a texture reference, so the
      second corner is rejected. */
  lemma MixedFaceRejected()
    ensures ParseFace(["1/1", "2", "3"]) == Err(InconsistentFace("2"))
  {
    VertexTextureCorner();
    VertexOnlyCorner();
    MixedTriangle("1/1", "2", "3", Indices(1, Some(1), None), Indices(2, None, None));
  }

  lemma MixedTriangle(a: string, b: string, c: string, first: Indices, second: Indices)
    requires ParseIndices(a) == Ok(first) && ParseIndices(b) == Ok(second)
    requires PresenceOf(first) != PresenceOf(second)
    ensures ParseFace([a, b, c]) == Err(InconsistentFace(b))
  {
    SecondCornerInconsistent([a, b, c], first, second);
  }

  /** A texture field that does not convert rejects the corner with the
      conversion's error. */
  lemma TextureFieldRejected(arg: string, vs: string, ts: string)
    requires Split.Split(arg, "/") == [vs, ts]
    requires vs != "" && ParseIndex(vs).Ok?
    requires ts != "" && ParseIndex(ts).Err?
    ensures ParseIndices(arg) == Err(BadNumber(ParseIndex(ts).error))
  {
  }

  /** `1/x`: the texture reference `x` is not a number. */
  lemma BadTextureRejected()
    ensures ParseIndices("1/x") == Err(BadNumber(NoConversion("x")))
  {
    SmallIndex(1);
    assert [DigitChar(1)] == "1";
    NonNumericRejected();
    SlashFields();
    TextureFieldRejected("1/x", "1", "x");
  }

  lemma SlashFields()
    ensures Split.Split("1/x", "/") == ["1", "x"]
  {
    Split.SplitJoin(["1", "x"], "/");
    assert Split.Join(["1", "x"], "/") == "1/x";
  }

  lemma TrailingSlashFields()
    ensures Split.Split("1/2/", "/") == ["1", "2", ""]
  {
    Split.SplitJoin(["1", "2", ""], "/");
    assert Split.Join(["1", "2", ""], "/") == "1/2/";
  }

  /** The digits `1` and `2` read as the indices 1 and 2. */
  lemma OneAndTwo()
    ensures ParseIndex("1") == Ok(1) && ParseIndex("2") == Ok(2)
  {
    SmallIndex(1);
    SmallIndex(2);
    assert [DigitChar(1)] == "1" && [DigitChar(2)] == "2";
  }

  /** A corner `v/t/` with an empty last field has a texture and no normal. */
  lemma TextureWithoutNormal(arg: string, vs: string, v: nat, ts: string, t: nat)
    requires Split.Split(arg, "/") == [vs, ts, ""]
    requires vs != "" && ParseIndex(vs) == Ok(v)
    requires ts != "" && ParseIndex(ts) == Ok(t)
    ensures ParseIndices(arg) == Ok(Indices(v, Some(t), None))
  {
  }

  /** `1/2/`: texture reference 2 and no normal. */
  lemma TrailingSlashCorner()
    ensures ParseIndices("1/2/") == Ok(Indices(1, Some(2), None))
  {
    OneAndTwo();
    TrailingSlashFields();
    TextureWithoutNormal("1/2/", "1", 1, "2", 2);
  }

  lemma VertexTextureFields()
    ensures Split.Split("1/1", "/") == ["1", "1"]
  {
    Split.SplitJoin(["1", "1"], "/");
    assert Split.Join(["1", "1"], "/") == "1/1";
  }

  lemma VertexTextureCorner()
    ensures ParseIndices("1/1") == Ok(Indices(1, Some(1), None))
  {
    OneAndTwo();
    VertexTextureFields();
    ReadVertexTexture("1/1", "1", 1, "1", 1);
  }

  lemma VertexOnlyCorner()
    ensures ParseIndices("2") == Ok(Indices(2, None, None))
  {
    SmallIndex(2);
    Split.SplitJoin(["2"], "/");
    ReadVertexOnly("2", "2", 2);
  }
}

/** The mesh file (`parser::File`) and the two passes over it: `parse`, which
    dispatches every line on its first token, and `File::triangulate`, which
    rewrites quads into triangles. The input stream is given as its lines. */
module ObjParser {
  import opened Wrappers
  import opened LineObjects
  import Split
  import Numbers

  /** The tables of `parser::File`. Only `triangulated` is visible to the
      rest of the viewer. */
  datatype File = File(
    vertices: seq<Vertex>,
    texCoords: seq<VertexTexture>,
    normals: seq<Normal>,
    faces: seq<Face>,
    triangulated: seq<Face>)

  /** The global `parser::file` before the first parse. */
  const EmptyFile := File([], [], [], [], [])

  /** The state `parse` leaves behind, and the exception it stopped on, if
      any. Lines read before a failing line stay recorded, as they do in the
      global file. */
  datatype Outcome = Outcome(state: File, failure: Option<Failure>)

  /** The two ways `parse` can throw: a line constructor rejects its
      arguments, or `File::triangulate` meets a face that is neither a
      triangle nor a quad (`std::runtime_error`). */
  datatype Failure = LineRejected(error: ParseError) | UnhandledFace(corners: nat)

  /** What a line's first token selects. */
  datatype Kind = VertexLine | TextureLine | NormalLine | FaceLine | Ignored

  function KindOf(id: string): Kind {
    if id == "v" then VertexLine
    else if id == "vt" then TextureLine
    else if id == "vn" then NormalLine
    else if id == "f" then FaceLine
    else Ignored
  }

  /** Every stored face has the three or four corners the face constructor
      allows. */
  predicate WellFormed(f: File) {
    forall i :: 0 <= i < |f.faces| ==> |f.faces[i].vertices| == 3 || |f.faces[i].vertices| == 4
  }

  // ---------------------------------------------------------------------------
  // Triangulation

  /** The `triangle` helper of `File::triangulate`: its corners come out as
      `(b, c, a)`. */
  function Triangle(a: Indices, b: Indices, c: Indices): (t: Face)
    ensures t.vertices == [b, c, a]
  {
    Face([b, c, a])
  }

  /** One face of `File::triangulate`: a triangle passes through, a quad
      `[v0, v1, v2, v3]` becomes `triangle(v0, v1, v3)` and
      `triangle(v3, v1, v2)`, anything else is a `runtime_error`. */
  function TriangulateFace(face: Face): (r: Result<seq<Face>, Failure>)
    ensures r.Ok? <==> |face.vertices| == 3 || |face.vertices| == 4
    ensures r.Err? ==> r.error == UnhandledFace(|face.vertices|)
    ensures r.Ok? ==> |r.value| == (if |face.vertices| == 3 then 1 else 2)
    ensures r.Ok? ==> forall t :: t in r.value ==> |t.vertices| == 3
  {
    var v := face.vertices;
    if |v| == 3 then Ok([face])
    else if |v| != 4 then Err(UnhandledFace(|v|))
    else Ok([Triangle(v[0], v[1], v[3]), Triangle(v[3], v[1], v[2])])
  }

  /** Number of quads among `faces`. */
  function Quads(faces: seq<Face>): nat {
    if |faces| == 0 then 0
    else (if |faces[0].vertices| == 4 then 1 else 0) + Quads(faces[1..])
  }

  /** Every face is a triangle or a quad. */
  predicate Triangulable(faces: seq<Face>) {
    forall i :: 0 <= i < |faces| ==> |faces[i].vertices| == 3 || |faces[i].vertices| == 4
  }

  /** `File::triangulate`: the faces are rewritten in order and the first
      face that is neither a triangle nor a quad aborts the pass. */
  function Triangulate(faces: seq<Face>): (r: Result<seq<Face>, Failure>)
    ensures r.Ok? <==> Triangulable(faces)
    ensures r.Ok? ==> |r.value| == |faces| + Quads(faces)
    ensures r.Ok? ==> forall t :: t in r.value ==> |t.vertices| == 3
    ensures r.Err? ==> r.error.UnhandledFace?
  {
    if |faces| == 0 then Ok([])
    else
      var head :- TriangulateFace(faces[0]);
      var tail :- Triangulate(faces[1..]);
      Ok(head + tail)
  }

  // ---------------------------------------------------------------------------
  // What a line records

  /** The first token of a line, split on single spaces: it selects the
      constructor. */
  function Id(line: string): string {
    Split.Split(line, " ")[0]
  }

  /** The tokens after the first: the constructor's arguments. */
  function Args(line: string): seq<string> {
    Split.Split(line, " ")[1..]
  }

  /** The exception a constructor result stands for, if any. */
  function ErrorOf<T>(r: Result<T, ParseError>): Option<ParseError> {
    if r.Err? then Some(r.error) else None
  }

  /** The exception the constructor selected by `id` throws on `args`; none
      when it accepts them or when `id` selects no constructor. */
  function ArgsError(id: string, args: seq<string>): Option<ParseError> {
    match KindOf(id)
    case VertexLine => ErrorOf(ParseVertex(args))
    case TextureLine => ErrorOf(ParseVertexTexture(args))
    case NormalLine => ErrorOf(ParseNormal(args))
    case FaceLine => ErrorOf(ParseFace(args))
    case Ignored => None
  }

  /** The exception reading `line` throws, whatever was read before it. */
  function LineError(line: string): Option<ParseError> {
    ArgsError(Id(line), Args(line))
  }

  /** `line` is read without an exception. */
  predicate LineAccepted(line: string) {
    LineError(line).None?
  }

  /** The entry a line adds to each table: the constructed object in the
      table its first token names when the constructor accepts the
      arguments, nothing anywhere else. */
  function VertexOf(id: string, args: seq<string>): seq<Vertex> {
    if KindOf(id) == VertexLine && ParseVertex(args).Ok? then [ParseVertex(args).value] else []
  }

  function TextureOf(id: string, args: seq<string>): seq<VertexTexture> {
    if KindOf(id) == TextureLine && ParseVertexTexture(args).Ok? then [ParseVertexTexture(args).value] else []
  }

  function NormalOf(id: string, args: seq<string>): seq<Normal> {
    if KindOf(id) == NormalLine && ParseNormal(args).Ok? then [ParseNormal(args).value] else []
  }

  function FaceOf(id: string, args: seq<string>): seq<Face> {
    if KindOf(id) == FaceLine && ParseFace(args).Ok? then [ParseFace(args).value] else []
  }

  /** `f` with every table extended by what one line adds. */
  function Record(f: File, id: string, args: seq<string>): File {
    f.(vertices := f.vertices + VertexOf(id, args),
       texCoords := f.texCoords + TextureOf(id, args),
       normals := f.normals + NormalOf(id, args),
       faces := f.faces + FaceOf(id, args))
  }

  /** Table by table, the entries `lines` add, in line order. */
  function VerticesOf(lines: seq<string>): seq<Vertex> {
    if |lines| == 0 then [] else VertexOf(Id(lines[0]), Args(lines[0])) + VerticesOf(lines[1..])
  }

  function TexturesOf(lines: seq<string>): seq<VertexTexture> {
    if |lines| == 0 then [] else TextureOf(Id(lines[0]), Args(lines[0])) + TexturesOf(lines[1..])
  }

  function NormalsOf(lines: seq<string>): seq<Normal> {
    if |lines| == 0 then [] else NormalOf(Id(lines[0]), Args(lines[0])) + NormalsOf(lines[1..])
  }

  function FacesOf(lines: seq<string>): seq<Face> {
    if |lines| == 0 then [] else FaceOf(Id(lines[0]), Args(lines[0])) + FacesOf(lines[1..])
  }

  /** `f` with every table extended by what `lines` add. */
  function Recorded(f: File, lines: seq<string>): File {
    f.(vertices := f.vertices + VerticesOf(lines),
       texCoords := f.texCoords + TexturesOf(lines),
       normals := f.normals + NormalsOf(lines),
       faces := f.faces + FacesOf(lines))
  }

  /** The number of lines read before the first one that throws. */
  function AcceptedPrefix(lines: seq<string>): (n: nat)
    ensures n <= |lines|
    ensures forall i {:trigger LineAccepted(lines[i])} :: 0 <= i < n ==> LineAccepted(lines[i])
    ensures n < |lines| ==> !LineAccepted(lines[n])
  {
    if |lines| == 0 || !LineAccepted(lines[0]) then 0
    else
      var m := AcceptedPrefix(lines[1..]);
      assert forall i {:trigger LineAccepted(lines[i])} :: 0 <= i < 1 + m ==> LineAccepted(lines[i]) by {
        forall i | 1 <= i < 1 + m ensures LineAccepted(lines[i]) {
          assert lines[i] == lines[1..][i - 1];
        }
      }
      assert 1 + m < |lines| ==> lines[1 + m] == lines[1..][m];
      1 + m
  }

  // ---------------------------------------------------------------------------
  // Parsing

  /** The constructor a line selects, applied to its arguments, and the file
      with the new object appended to the matching table. */
  function Dispatch(f: File, id: string, args: seq<string>): (r: Result<File, ParseError>)
    ensures r.Ok? <==> ArgsError(id, args).None?
    ensures r.Err? ==> ArgsError(id, args) == Some(r.error)
    ensures r.Ok? ==> r.value == Record(f, id, args)
  {
    RecordedKind(f, id, args);
    match KindOf(id)
    case VertexLine => AddVertex(f, args)
    case TextureLine => AddTexture(f, args)
    case NormalLine => AddNormal(f, args)
    case FaceLine => AddFace(f, args)
    case Ignored => Ok(f)
  }

  function AddVertex(f: File, args: seq<string>): (r: Result<File, ParseError>)
    ensures r.Ok? <==> ParseVertex(args).Ok?
    ensures r.Err? ==> r.error == ParseVertex(args).error
    ensures r.Ok? ==> r.value.vertices == f.vertices + [ParseVertex(args).value]
    ensures r.Ok? ==> r.value.(vertices := f.vertices) == f
  {
    var v :- ParseVertex(args);
    Ok(f.(vertices := f.vertices + [v]))
  }

  function AddTexture(f: File, args: seq<string>): (r: Result<File, ParseError>)
    ensures r.Ok? <==> ParseVertexTexture(args).Ok?
    ensures r.Err? ==> r.error == ParseVertexTexture(args).error
    ensures r.Ok? ==> r.value.texCoords == f.texCoords + [ParseVertexTexture(args).value]
    ensures r.Ok? ==> r.value.(texCoords := f.texCoords) == f
  {
    var t :- ParseVertexTexture(args);
    Ok(f.(texCoords := f.texCoords + [t]))
  }

  function AddNormal(f: File, args: seq<string>): (r: Result<File, ParseError>)
    ensures r.Ok? <==> ParseNormal(args).Ok?
    ensures r.Err? ==> r.error == ParseNormal(args).error
    ensures r.Ok? ==> r.value.normals == f.normals + [ParseNormal(args).value]
    ensures r.Ok? ==> r.value.(normals := f.normals) == f
  {
    var n :- ParseNormal(args);
    Ok(f.(normals := f.normals + [n]))
  }

  function AddFace(f: File, args: seq<string>): (r: Result<File, ParseError>)
    ensures r.Ok? <==> ParseFace(args).Ok?
    ensures r.Err? ==> r.error == ParseFace(args).error
    ensures r.Ok? ==> r.value.faces == f.faces + [ParseFace(args).value]
    ensures r.Ok? ==> |ParseFace(args).value.vertices| == 3 || |ParseFace(args).value.vertices| == 4
    ensures r.Ok? ==> r.value.(faces := f.faces) == f
  {
    var face :- ParseFace(args);
    Ok(f.(faces := f.faces + [face]))
  }

  /** One line of `parse`: split on single spaces, the first token selects
      the constructor and the remaining tokens are its arguments. */
  function ParseLine(f: File, line: string): (r: Result<File, ParseError>)
    ensures r.Ok? <==> LineAccepted(line)
    ensures r.Err? ==> LineError(line) == Some(r.error)
    ensures r.Ok? ==> r.value == Recorded(f, [line])
  {
    RecordedOne(f, line);
    Dispatch(f, Id(line), Args(line))
  }

  /** The read loop of `parse`, stopping at the first line that throws: the
      lines before it are recorded, it and every later line are not. */
  function ParseLines(f: File, lines: seq<string>): (r: Outcome)
    ensures r.state == Recorded(f, lines[..AcceptedPrefix(lines)])
    ensures r.failure.None? <==> AcceptedPrefix(lines) == |lines|
    ensures r.failure.Some? ==>
      && AcceptedPrefix(lines) < |lines|
      && r.failure == Some(LineRejected(LineError(lines[AcceptedPrefix(lines)]).value))
    ensures WellFormed(f) ==> WellFormed(r.state)
    decreases |lines|
  {
    if |lines| == 0 then
      RecordedNothing(f, lines);
      Outcome(f, None)
    else
      match ParseLine(f, lines[0])
      case Err(e) =>
        RecordedNothing(f, lines);
        Outcome(f, Some(LineRejected(e)))
      case Ok(g) =>
        RecordWellFormed(f, Id(lines[0]), Args(lines[0]));
        RecordedOne(f, lines[0]);
        RecordedStep(f, lines, AcceptedPrefix(lines));
        ParseLines(g, lines[1..])
  }

  /** `parser::parse` on the lines of the opened file: only the vertex table
      is reset, every line is dispatched, then all faces recorded so far are
      triangulated. A failed triangulation leaves the previous triangle list
      in place. */
  function Parse(f: File, lines: seq<string>): (r: Outcome)
    ensures r.state.(triangulated := f.triangulated)
         == Recorded(f.(vertices := []), lines[..AcceptedPrefix(lines)])
    ensures r.failure.None? <==>
      (forall i {:trigger LineAccepted(lines[i])} :: 0 <= i < |lines| ==> LineAccepted(lines[i])) && Triangulable(f.faces + FacesOf(lines))
    ensures r.failure.None? ==> r.state.triangulated == Triangulate(f.faces + FacesOf(lines)).value
    ensures r.failure.Some? ==> r.state.triangulated == f.triangulated
    ensures r.failure.Some? ==> (r.failure.value.LineRejected? <==> AcceptedPrefix(lines) < |lines|)
    ensures WellFormed(f) ==> WellFormed(r.state)
    ensures WellFormed(f) ==> (r.failure.None? <==> forall i {:trigger LineAccepted(lines[i])} :: 0 <= i < |lines| ==> LineAccepted(lines[i]))
    ensures r.failure.None? ==> forall t :: t in r.state.triangulated ==> |t.vertices| == 3
  {
    var out := ParseLines(f.(vertices := []), lines);
    assert lines[..|lines|] == lines;
    if out.failure.Some? then out
    else
      match Triangulate(out.state.faces)
      case Err(e) => Outcome(out.state, Some(e))
      case Ok(ts) => Outcome(out.state.(triangulated := ts), None)
  }

  // ---------------------------------------------------------------------------
  // Proofs

  /** No line records nothing. */
  lemma RecordedNothing(f: File, lines: seq<string>)
    ensures Recorded(f, lines[..0]) == f
  {
    assert lines[..0] == [];
  }

  /** A single line records what that line adds. */
  lemma RecordedOne(f: File, line: string)
    ensures Recorded(f, [line]) == Record(f, Id(line), Args(line))
  {
    var id, args, rest := Id(line), Args(line), [line][1..];
    assert rest == [];
    assert VerticesOf([line]) == VertexOf(id, args) + VerticesOf(rest) == VertexOf(id, args) + [];
    assert TexturesOf([line]) == TextureOf(id, args) + TexturesOf(rest) == TextureOf(id, args) + [];
    assert NormalsOf([line]) == NormalOf(id, args) + NormalsOf(rest) == NormalOf(id, args) + [];
    assert FacesOf([line]) == FaceOf(id, args) + FacesOf(rest) == FaceOf(id, args) + [];
    Unit(VertexOf(id, args));
    Unit(TextureOf(id, args));
    Unit(NormalOf(id, args));
    Unit(FaceOf(id, args));
  }

  lemma Prepend<T>(e: seq<T>, s: seq<T>)
    requires e == []
    ensures e + s == s
  {
  }

  lemma Unit<T>(a: seq<T>)
    ensures a + [] == a
  {
  }

  /** Recording the first `n` lines is recording the first line, then the
      next `n - 1`. */
  lemma RecordedStep(f: File, lines: seq<string>, n: nat)
    requires 0 < n <= |lines|
    ensures Recorded(Recorded(f, [lines[0]]), lines[1..][..n - 1]) == Recorded(f, lines[..n])
  {
    var l0, rest := lines[0], lines[1..][..n - 1];
    assert lines[..n][1..] == rest;
    var id, args := Id(l0), Args(l0);
    RecordedOne(f, l0);
    var g := Record(f, id, args);
    assert VerticesOf(lines[..n]) == VertexOf(id, args) + VerticesOf(rest);
    assert TexturesOf(lines[..n]) == TextureOf(id, args) + TexturesOf(rest);
    assert NormalsOf(lines[..n]) == NormalOf(id, args) + NormalsOf(rest);
    assert FacesOf(lines[..n]) == FaceOf(id, args) + FacesOf(rest);
    Associative(f.vertices, VertexOf(id, args), VerticesOf(rest));
    Associative(f.texCoords, TextureOf(id, args), TexturesOf(rest));
    Associative(f.normals, NormalOf(id, args), NormalsOf(rest));
    Associative(f.faces, FaceOf(id, args), FacesOf(rest));
  }

  lemma AppendTwo<T>(s: seq<T>, x: T, y: T)
    ensures s + [x] + [y] == s + [x, y]
  {
  }

  lemma Associative<T>(a: seq<T>, b: seq<T>, c: seq<T>)
    ensures a + b + c == a + (b + c)
  {
  }

  /** A line adds to the table its first token names and to no other. */
  lemma RecordedKind(f: File, id: string, args: seq<string>)
    ensures KindOf(id) == VertexLine && ParseVertex(args).Ok? ==>
      Record(f, id, args) == f.(vertices := f.vertices + [ParseVertex(args).value])
    ensures KindOf(id) == TextureLine && ParseVertexTexture(args).Ok? ==>
      Record(f, id, args) == f.(texCoords := f.texCoords + [ParseVertexTexture(args).value])
    ensures KindOf(id) == NormalLine && ParseNormal(args).Ok? ==>
      Record(f, id, args) == f.(normals := f.normals + [ParseNormal(args).value])
    ensures KindOf(id) == FaceLine && ParseFace(args).Ok? ==>
      Record(f, id, args) == f.(faces := f.faces + [ParseFace(args).value])
    ensures KindOf(id) == Ignored ==> Record(f, id, args) == f
  {
    Unit(f.vertices);
    Unit(f.texCoords);
    Unit(f.normals);
    Unit(f.faces);
  }

  /** Every face a line adds has three or four corners. */
  lemma RecordWellFormed(f: File, id: string, args: seq<string>)
    ensures WellFormed(f) ==> WellFormed(Record(f, id, args))
  {
    var g := Record(f, id, args);
    if WellFormed(f) {
      forall i | 0 <= i < |g.faces| ensures |g.faces[i].vertices| == 3 || |g.faces[i].vertices| == 4 {
        if i < |f.faces| {
          assert g.faces[i] == f.faces[i];
        }
      }
    }
  }

  /** A triangle passes through unchanged. */
  lemma TrianglePassesThrough(face: Face)
    requires |face.vertices| == 3
    ensures Triangulate([face]) == Ok([face])
  {
    var fs := [face];
    assert Triangulate(fs[1..]) == Ok([]);
    assert [face] + [] == [face];
  }

  /** A quad `[a, b, c, d]` becomes `[b, d, a]` then `[b, c, d]`: the two
      triangles share the edge from corner 1 to corner 3. */
  lemma QuadSplit(a: Indices, b: Indices, c: Indices, d: Indices)
    ensures Triangulate([Face([a, b, c, d])]) == Ok([Face([b, d, a]), Face([b, c, d])])
  {
    var fs := [Face([a, b, c, d])];
    assert Triangulate(fs[1..]) == Ok([]);
    var ts := [Face([b, d, a]), Face([b, c, d])];
    assert ts + [] == ts;
  }

  /** Triangulating a concatenation triangulates each part, in order. */
  lemma {:induction false} TriangulateAppend(xs: seq<Face>, ys: seq<Face>)
    requires Triangulable(xs) && Triangulable(ys)
    ensures Triangulable(xs + ys)
    ensures Triangulate(xs + ys) == Ok(Triangulate(xs).value + Triangulate(ys).value)
    decreases |xs|
  {
    if |xs| > 0 {
      assert (xs + ys)[1..] == xs[1..] + ys;
      assert (xs + ys)[0] == xs[0];
      assert Triangulable(xs[1..]);
      TriangulateAppend(xs[1..], ys);
      var h := TriangulateFace(xs[0]).value;
      var a := Triangulate(xs[1..]).value;
      var b := Triangulate(ys).value;
      assert h + (a + b) == (h + a) + b;
    } else {
      assert xs + ys == ys;
      assert Triangulate(xs) == Ok([]);
      assert [] + Triangulate(ys).value == Triangulate(ys).value;
    }
  }

  /** `f` recorded after the tables of `base`. */
  function Under(base: File, f: File): File {
    File(base.vertices + f.vertices, base.texCoords + f.texCoords, base.normals + f.normals,
         base.faces + f.faces, base.triangulated + f.triangulated)
  }

  /** A line appends the same object whatever was recorded before. */
  lemma DispatchUnder(base: File, f: File, id: string, args: seq<string>)
    ensures Dispatch(Under(base, f), id, args)
         == (match Dispatch(f, id, args) case Ok(g) => Ok(Under(base, g)) case Err(e) => Err(e))
  {
    match KindOf(id)
    case VertexLine => VertexUnder(base, f, args);
    case TextureLine => TextureUnder(base, f, args);
    case NormalLine => NormalUnder(base, f, args);
    case FaceLine => FaceUnder(base, f, args);
    case Ignored =>
  }

  lemma VertexUnder(base: File, f: File, args: seq<string>)
    ensures AddVertex(Under(base, f), args)
         == (match AddVertex(f, args) case Ok(g) => Ok(Under(base, g)) case Err(e) => Err(e))
  {
    if ParseVertex(args).Ok? {
      var v := ParseVertex(args).value;
      assert base.vertices + f.vertices + [v] == base.vertices + (f.vertices + [v]);
    }
  }

  lemma TextureUnder(base: File, f: File, args: seq<string>)
    ensures AddTexture(Under(base, f), args)
         == (match AddTexture(f, args) case Ok(g) => Ok(Under(base, g)) case Err(e) => Err(e))
  {
    if ParseVertexTexture(args).Ok? {
      var t := ParseVertexTexture(args).value;
      assert base.texCoords + f.texCoords + [t] == base.texCoords + (f.texCoords + [t]);
    }
  }

  lemma NormalUnder(base: File, f: File, args: seq<string>)
    ensures AddNormal(Under(base, f), args)
         == (match AddNormal(f, args) case Ok(g) => Ok(Under(base, g)) case Err(e) => Err(e))
  {
    if ParseNormal(args).Ok? {
      var n := ParseNormal(args).value;
      assert base.normals + f.normals + [n] == base.normals + (f.normals + [n]);
    }
  }

  lemma FaceUnder(base: File, f: File, args: seq<string>)
    ensures AddFace(Under(base, f), args)
         == (match AddFace(f, args) case Ok(g) => Ok(Under(base, g)) case Err(e) => Err(e))
  {
    if ParseFace(args).Ok? {
      var face := ParseFace(args).value;
      assert base.faces + f.faces + [face] == base.faces + (f.faces + [face]);
    }
  }

  lemma {:induction false} ParseLinesUnder(base: File, f: File, lines: seq<string>)
    ensures ParseLines(Under(base, f), lines)
         == Outcome(Under(base, ParseLines(f, lines).state), ParseLines(f, lines).failure)
    decreases |lines|
  {
    if |lines| > 0 {
      DispatchUnder(base, f, Id(lines[0]), Args(lines[0]));
      match ParseLine(f, lines[0])
      case Err(e) =>
      case Ok(g) =>
        ParseLinesUnder(base, g, lines[1..]);
    }
  }

  /** Only the vertex table is reset by `parse`: texture coordinates,
      normals and faces of an earlier parse stay in front of the new ones,
      and the new triangle list starts with the earlier faces' triangles. */
  lemma ParseKeepsEarlierTables(f: File, lines: seq<string>)
    requires WellFormed(f)
    ensures var r := Parse(f, lines);
      var alone := Parse(EmptyFile, lines);
      && r.failure == alone.failure
      && r.state.vertices == alone.state.vertices
      && r.state.texCoords == f.texCoords + alone.state.texCoords
      && r.state.normals == f.normals + alone.state.normals
      && r.state.faces == f.faces + alone.state.faces
      && (r.failure.None? ==> r.state.triangulated == Triangulate(f.faces).value + alone.state.triangulated)
  {
    var out := ParseLines(EmptyFile, lines);
    ReadLoopKeepsEarlierTables(f, lines);
    assert EmptyFile.(vertices := []) == EmptyFile;
    if out.failure.None? {
      WellFormedNew(lines);
      TriangulateAppend(f.faces, out.state.faces);
    }
  }

  /** The read loop of `parse` on a file whose vertex table was just reset
      records exactly what it records on an empty file, after the kept
      tables. */
  lemma ReadLoopKeepsEarlierTables(f: File, lines: seq<string>)
    ensures var out := ParseLines(EmptyFile, lines);
      ParseLines(f.(vertices := []), lines)
        == Outcome(Under(f.(vertices := []), out.state), out.failure)
  {
    var base := f.(vertices := []);
    Unit(base.vertices);
    Unit(base.texCoords);
    Unit(base.normals);
    Unit(base.faces);
    Unit(base.triangulated);
    assert Under(base, EmptyFile) == base;
    ParseLinesUnder(base, EmptyFile, lines);
  }

  lemma WellFormedNew(lines: seq<string>)
    ensures WellFormed(ParseLines(EmptyFile, lines).state)
  {
  }

  /** The orientation of a triangle is that of the quad it came from: it is
      a rotation of three quad corners taken in the quad's own order. */
  ghost predicate SameOrientation(t: seq<Indices>, q: seq<Indices>) {
    exists i, j, k :: 0 <= i < j < k < |q| && IsRotation(t, [q[i], q[j], q[k]])
  }

  predicate IsRotation(t: seq<Indices>, s: seq<Indices>) {
    |t| == 3 && |s| == 3 && (t == s || t == s[1..] + s[..1] || t == s[2..] + s[..2])
  }

  /** Both triangles of a quad keep its winding. */
  lemma QuadWinding(q: seq<Indices>)
    requires |q| == 4
    ensures TriangulateFace(Face(q)).Ok?
    ensures SameOrientation(TriangulateFace(Face(q)).value[0].vertices, q)
    ensures SameOrientation(TriangulateFace(Face(q)).value[1].vertices, q)
  {
    var ts := TriangulateFace(Face(q)).value;
    var s0 := [q[0], q[1], q[3]];
    assert ts[0].vertices == s0[1..] + s0[..1];
    assert IsRotation(ts[0].vertices, [q[0], q[1], q[3]]);
    var s1 := [q[1], q[2], q[3]];
    assert ts[1].vertices == s1;
    assert IsRotation(ts[1].vertices, [q[1], q[2], q[3]]);
  }

  /** Together the two triangles of a quad use each of its corners once and
      the two ends of the shared diagonal, corners 1 and 3, a second time. */
  lemma QuadCover(q: seq<Indices>)
    requires |q| == 4
    ensures TriangulateFace(Face(q)).Ok?
    ensures var ts := TriangulateFace(Face(q)).value;
      multiset(ts[0].vertices) + multiset(ts[1].vertices) == multiset(q) + multiset{q[1], q[3]}
  {
    var a, b, c, d := q[0], q[1], q[2], q[3];
    assert q == [a, b, c, d];
    assert TriangulateFace(Face(q)).value == [Face([b, d, a]), Face([b, c, d])];
    CornerCount(a, b, c, d);
  }

  /** The corners of the two triangles, counted with multiplicity. */
  lemma CornerCount<T>(a: T, b: T, c: T, d: T)
    ensures multiset([b, d, a]) + multiset([b, c, d]) == multiset([a, b, c, d]) + multiset{b, d}
  {
    ThreeCorners(b, d, a);
    ThreeCorners(b, c, d);
    FourCorners(a, b, c, d);
    CornerUnion(a, b, c, d);
  }

  /** The multiset of a short sequence is that of its elements. */
  lemma ThreeCorners<T>(a: T, b: T, c: T)
    ensures multiset([a, b, c]) == multiset{a, b, c}
  {
  }

  lemma FourCorners<T>(a: T, b: T, c: T, d: T)
    ensures multiset([a, b, c, d]) == multiset{a, b, c, d}
  {
  }

  lemma CornerUnion<T>(a: T, b: T, c: T, d: T)
    ensures multiset{b, d, a} + multiset{b, c, d} == multiset{a, b, c, d} + multiset{b, d}
  {
  }

  /** An `f` line whose arguments form `face` appends that face to any file. */
  lemma FaceLineAppends(f: File, line: string, args: seq<string>, face: Face)
    requires Id(line) == "f" && Args(line) == args
    requires ParseFace(args) == Ok(face)
    ensures LineAccepted(line)
    ensures Recorded(f, [line]) == f.(faces := f.faces + [face])
  {
    RecordedOne(f, line);
    RecordedKind(f, Id(line), args);
  }

  /** Two lines record what the first records, then what the second does. */
  lemma RecordedTwo(f: File, a: string, b: string)
    ensures Recorded(f, [a, b]) == Recorded(Recorded(f, [a]), [b])
  {
    RecordedStep(f, [a, b], 2);
    assert [a, b][1..][..1] == [b];
    assert [a, b][..2] == [a, b];
  }

  lemma RecordedThrough(f: File, a: string, b: string, g: File, h: File)
    requires Recorded(f, [a]) == g && Recorded(g, [b]) == h
    ensures Recorded(f, [a, b]) == h
  {
    RecordedTwo(f, a, b);
  }

  /** `f 1 2 3` then `f 1 2 3 4`: the triangle passes through and the quad
      becomes two triangles sharing its diagonal from corner 2 to corner 4. */
  lemma TriangleAndQuad()
    ensures var c1, c2, c3, c4 := Indices(1, None, None), Indices(2, None, None), Indices(3, None, None), Indices(4, None, None);
      Parse(EmptyFile, ["f 1 2 3", "f 1 2 3 4"])
        == Outcome(EmptyFile.(faces := [Face([c1, c2, c3]), Face([c1, c2, c3, c4])],
                              triangulated := [Face([c1, c2, c3]), Face([c2, c4, c1]), Face([c2, c3, c4])]),
                   None)
  {
    var c1, c2, c3, c4 := Indices(1, None, None), Indices(2, None, None), Indices(3, None, None), Indices(4, None, None);
    var tri, quad := Face([c1, c2, c3]), Face([c1, c2, c3, c4]);
    PlainFaces();
    FaceLinesSplit();
    TriangleThenQuad("f 1 2 3", "f 1 2 3 4", ["1", "2", "3"], ["1", "2", "3", "4"], tri, quad);
  }

  /** Two accepted `f` lines, a triangle then a quad, parse to those faces
      and to the triangle followed by the quad's two triangles. */
  lemma TriangleThenQuad(a: string, b: string, argsA: seq<string>, argsB: seq<string>, tri: Face, quad: Face)
    requires Id(a) == "f" && Args(a) == argsA && ParseFace(argsA) == Ok(tri)
    requires Id(b) == "f" && Args(b) == argsB && ParseFace(argsB) == Ok(quad)
    requires |tri.vertices| == 3 && |quad.vertices| == 4
    ensures var q := quad.vertices;
      Parse(EmptyFile, [a, b])
        == Outcome(EmptyFile.(faces := [tri, quad],
                              triangulated := [tri, Face([q[1], q[3], q[0]]), Face([q[1], q[2], q[3]])]),
                   None)
  {
    TwoFaceFile(a, b, argsA, argsB, tri, quad);
    TriangleThenQuadTriangles(tri, quad);
    ParseAccepted([a, b], [tri, quad]);
  }

  /** Two accepted `f` lines make a file of those two faces alone. */
  lemma TwoFaceFile(a: string, b: string, argsA: seq<string>, argsB: seq<string>, faceA: Face, faceB: Face)
    requires Id(a) == "f" && Args(a) == argsA && ParseFace(argsA) == Ok(faceA)
    requires Id(b) == "f" && Args(b) == argsB && ParseFace(argsB) == Ok(faceB)
    ensures forall i :: 0 <= i < |[a, b]| ==> LineAccepted([a, b][i])
    ensures Recorded(EmptyFile, [a, b]) == EmptyFile.(faces := [faceA, faceB])
  {
    TwoFaceLines(EmptyFile, a, b, argsA, argsB, faceA, faceB);
    Prepend<Face>([], [faceA, faceB]);
    TwoAccepted(a, b);
  }

  lemma TwoAccepted(a: string, b: string)
    requires LineAccepted(a) && LineAccepted(b)
    ensures forall i :: 0 <= i < |[a, b]| ==> LineAccepted([a, b][i])
  {
  }

  lemma TriangleThenQuadTriangles(tri: Face, quad: Face)
    requires |tri.vertices| == 3 && |quad.vertices| == 4
    ensures var q := quad.vertices;
      && Triangulable([tri, quad])
      && Triangulate([tri, quad]).value == [tri, Face([q[1], q[3], q[0]]), Face([q[1], q[2], q[3]])]
  {
    var q := quad.vertices;
    TrianglePassesThrough(tri);
    assert quad == Face([q[0], q[1], q[2], q[3]]);
    QuadSplit(q[0], q[1], q[2], q[3]);
    assert Triangulable([tri]) && Triangulable([quad]);
    TriangulateAppend([tri], [quad]);
    assert [tri] + [quad] == [tri, quad];
  }

  /** A file whose lines are all accepted and record only the faces `faces`
      parses to those faces and their triangles. */
  lemma ParseAccepted(lines: seq<string>, faces: seq<Face>)
    requires forall i {:trigger LineAccepted(lines[i])} :: 0 <= i < |lines| ==> LineAccepted(lines[i])
    requires Recorded(EmptyFile, lines) == EmptyFile.(faces := faces)
    requires Triangulable(faces)
    ensures Parse(EmptyFile, lines) == Outcome(EmptyFile.(faces := faces, triangulated := Triangulate(faces).value), None)
  {
    assert lines[..|lines|] == lines;
    assert EmptyFile.(vertices := []) == EmptyFile;
  }

  lemma PlainFaces()
    ensures var c1, c2, c3, c4 := Indices(1, None, None), Indices(2, None, None), Indices(3, None, None), Indices(4, None, None);
      && ParseFace(["1", "2", "3"]) == Ok(Face([c1, c2, c3]))
      && ParseFace(["1", "2", "3", "4"]) == Ok(Face([c1, c2, c3, c4]))
  {
    var c1, c2, c3, c4 := Indices(1, None, None), Indices(2, None, None), Indices(3, None, None), Indices(4, None, None);
    DigitCorners();
    TriangleAccepted("1", "2", "3", c1, c2, c3);
    QuadAccepted("1", "2", "3", "4", c1, c2, c3, c4);
  }

  /** The corners `1` to `4` carry only their vertex reference. */
  lemma DigitCorners()
    ensures ParseIndices("1") == Ok(Indices(1, None, None))
    ensures ParseIndices("2") == Ok(Indices(2, None, None))
    ensures ParseIndices("3") == Ok(Indices(3, None, None))
    ensures ParseIndices("4") == Ok(Indices(4, None, None))
  {
    DigitCorner(1);
    DigitCorner(2);
    DigitCorner(3);
    DigitCorner(4);
    assert [Numbers.DigitChar(1)] == "1" && [Numbers.DigitChar(2)] == "2" && [Numbers.DigitChar(3)] == "3" && [Numbers.DigitChar(4)] == "4";
  }

  lemma FaceLinesSplit()
    ensures Id("f 1 2 3") == "f" && Args("f 1 2 3") == ["1", "2", "3"]
    ensures Id("f 1 2 3 4") == "f" && Args("f 1 2 3 4") == ["1", "2", "3", "4"]
  {
    Split.SplitJoin(["f", "1", "2", "3"], " ");
    assert Split.Join(["f", "1", "2", "3"], " ") == "f 1 2 3";
    Split.SplitJoin(["f", "1", "2", "3", "4"], " ");
    assert Split.Join(["f", "1", "2", "3", "4"], " ") == "f 1 2 3 4";
  }

  /** Two accepted `f` lines append their two faces in order. */
  lemma TwoFaceLines(f: File, a: string, b: string, argsA: seq<string>, argsB: seq<string>, faceA: Face, faceB: Face)
    requires Id(a) == "f" && Args(a) == argsA && ParseFace(argsA) == Ok(faceA)
    requires Id(b) == "f" && Args(b) == argsB && ParseFace(argsB) == Ok(faceB)
    ensures LineAccepted(a) && LineAccepted(b)
    ensures Recorded(f, [a, b]) == f.(faces := f.faces + [faceA, faceB])
  {
    FaceLineAppends(f, a, argsA, faceA);
    var g := f.(faces := f.faces + [faceA]);
    FaceLineAppends(g, b, argsB, faceB);
    AppendTwo(f.faces, faceA, faceB);
    RecordedThrough(f, a, b, g, f.(faces := f.faces + [faceA, faceB]));
  }

  /** A trailing space leaves an empty last argument, so `v 1 2 3 ` has four
      arguments and is rejected. */
  lemma TrailingSpaceRejected(f: File)
    ensures ParseLine(f, "v 1 2 3 ") == Err(WrongArity(3, 4))
  {
    Split.SplitJoin(["v", "1", "2", "3", ""], " ");
    assert Split.Join(["v", "1", "2", "3", ""], " ") == "v 1 2 3 ";
    assert ["v", "1", "2", "3", ""][1..] == ["1", "2", "3", ""];
  }

  /** A blank line or a comment changes nothing. */
  lemma IgnoredLines(f: File)
    ensures ParseLine(f, "") == Ok(f)
    ensures ParseLine(f, "# comment") == Ok(f)
  {
    IgnoredIds();
    IgnoredLine(f, "");
    IgnoredLine(f, "# comment");
  }

  lemma IgnoredIds()
    ensures Id("") == "" && Id("# comment") == "#"
  {
    Split.BlankLine();
    Split.SplitJoin(["#", "comment"], " ");
    assert Split.Join(["#", "comment"], " ") == "# comment";
  }

  /** A line whose first token selects no constructor changes nothing. */
  lemma IgnoredLine(f: File, line: string)
    requires KindOf(Id(line)) == Ignored
    ensures ParseLine(f, line) == Ok(f)
  {
    RecordedKind(f, Id(line), Args(line));
  }
}

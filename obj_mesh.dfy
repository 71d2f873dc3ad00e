/** The mesh records and the OBJ loader: the line and face-token logic of
    `Mesh::FromObjFile` over the lines of an opened file, and the two built-in
    meshes. What `>>` reads as floating-point numbers is a parameter. */
module Meshes {
  import opened Wrappers
  import opened MathHelpers

  /** `size_t`. */
  type uint64 = x: int | 0 <= x < 0x1_0000_0000_0000_0000

  /** `std::array<size_t, 3>`. */
  type Indices3 = s: seq<uint64> | |s| == 3 witness [0, 0, 0]

  datatype MeshFace = MeshFace(vertexIndices: Indices3, textureCoordinateIndices: Indices3, color: Colour)

  /** `Mesh`, over the vertex and texture-coordinate types of its user: the
      loader reads floats, the renderer draws fixed-point values. */
  datatype Mesh<V, T> = Mesh(vertices: seq<V>, textureCoordinates: seq<T>, faces: seq<MeshFace>)

  /** The meshes the loader builds. */
  type ObjMesh = Mesh<RVec3, RVec2>

  const VerticesPerFace: nat := 3

  /** `c_faceColors`: the colours handed to successive faces. */
  const FaceColors: seq<Colour> := [0xFFFF0000, 0xFF00FF00, 0xFF0000FF, 0xFFFFFF00, 0xFFFF00FF, 0xFF00FFFF]

  // ---------------------------------------------------------------------
  // Words of a line

  /** The characters `isspace` accepts. */
  predicate IsSpace(c: char)
  {
    c == ' ' || c == '\t' || c == '\n' || c == '\r' || c == '\U{000B}' || c == '\U{000C}'
  }

  /** A word as `>>` extracts it into a `std::string`: non-empty, no whitespace. */
  predicate IsWord(w: string)
  {
    |w| > 0 && forall i | 0 <= i < |w| :: !IsSpace(w[i])
  }

  /** The length of the word at the start of `s`. */
  function WordLength(s: string): (n: nat)
    ensures n <= |s|
    ensures forall i | 0 <= i < n :: !IsSpace(s[i])
    ensures n < |s| ==> IsSpace(s[n])
  {
    if |s| == 0 || IsSpace(s[0]) then 0 else 1 + WordLength(s[1..])
  }

  /** The words successive `>>` extractions take from a line, in order. */
  function Words(s: string): (r: seq<string>)
    ensures forall i | 0 <= i < |r| :: IsWord(r[i])
    decreases |s|
  {
    if |s| == 0 then []
    else if IsSpace(s[0]) then Words(s[1..])
    else
      var n := WordLength(s);
      assert s[..n][0] == s[0];
      [s[..n]] + Words(s[n..])
  }

  /** Words joined by single spaces. */
  function Join(words: seq<string>): string
  {
    if |words| == 0 then "" else if |words| == 1 then words[0] else words[0] + " " + Join(words[1..])
  }

  lemma WordAtStart(w: string, rest: string)
    requires IsWord(w) && (|rest| == 0 || IsSpace(rest[0]))
    ensures WordLength(w + rest) == |w|
    decreases |w|
  {
    if |w| > 1 {
      assert (w + rest)[1..] == w[1..] + rest;
      WordAtStart(w[1..], rest);
    } else {
      assert (w + rest)[1..] == rest;
    }
  }

  /** Splitting words joined by spaces gives the words back. */
  lemma {:induction false} WordsOfJoin(words: seq<string>)
    requires forall i | 0 <= i < |words| :: IsWord(words[i])
    ensures Words(Join(words)) == words
    decreases |words|
  {
    if |words| == 1 {
      WordAtStart(words[0], "");
      assert words[0] + "" == words[0];
      assert words[0][|words[0]|..] == "";
    } else if |words| > 1 {
      var w, tail := words[0], Join(words[1..]);
      var s := w + " " + tail;
      assert s == w + (" " + tail);
      WordAtStart(w, " " + tail);
      assert s[..|w|] == w;
      assert s[|w|..] == " " + tail;
      assert (" " + tail)[1..] == tail;
      WordsOfJoin(words[1..]);
    }
  }

  // ---------------------------------------------------------------------
  // std::stoi

  datatype StoiError =
    | InvalidArgument   // no digits where a number should start
    | OutOfRange        // the value does not fit an `int`

  predicate IsDigit(c: char)
  {
    '0' <= c <= '9'
  }

  /** The number of decimal digits at the start of `s`. */
  function DigitCount(s: string): (n: nat)
    ensures n <= |s|
    ensures forall i | 0 <= i < n :: IsDigit(s[i])
    ensures n < |s| ==> !IsDigit(s[n])
  {
    if |s| == 0 || !IsDigit(s[0]) then 0 else 1 + DigitCount(s[1..])
  }

  function DigitValue(c: char): (d: nat)
    requires IsDigit(c)
    ensures d < 10
  {
    c as int - '0' as int
  }

  /** The first `n` characters of `s`, all digits, read in base ten. */
  function DigitsValue(s: string, n: nat): nat
    requires n <= |s| && forall i | 0 <= i < n :: IsDigit(s[i])
  {
    if n == 0 then 0 else 10 * DigitsValue(s, n - 1) + DigitValue(s[n - 1])
  }

  /** `std::stoi`: an optional sign, then the longest run of decimal digits;
      what follows the digits is ignored. The words it is given never hold
      whitespace, so the leading-whitespace skip of `strtol` never applies. */
  function Stoi(s: string): Result<int, StoiError>
  {
    var negative := |s| > 0 && s[0] == '-';
    var body := if |s| > 0 && (s[0] == '-' || s[0] == '+') then s[1..] else s;
    var n := DigitCount(body);
    if n == 0 then Failure(InvalidArgument)
    else
      var magnitude: int := DigitsValue(body, n);
      var value := if negative then -magnitude else magnitude;
      if value < -0x8000_0000 || value > 0x7FFF_FFFF then Failure(OutOfRange) else Success(value)
  }

  /** The decimal digits of `n`, without leading zeros. */
  function Decimal(n: nat): (r: string)
    ensures |r| > 0 && forall i | 0 <= i < |r| :: IsDigit(r[i])
  {
    var digit := ['0' + ((n % 10) as char)];
    if n < 10 then digit else Decimal(n / 10) + digit
  }

  lemma {:induction false} DigitCountOfDigits(digits: string, rest: string)
    requires forall i | 0 <= i < |digits| :: IsDigit(digits[i])
    requires |rest| == 0 || !IsDigit(rest[0])
    ensures DigitCount(digits + rest) == |digits|
    decreases |digits|
  {
    if |digits| > 0 {
      assert (digits + rest)[1..] == digits[1..] + rest;
      DigitCountOfDigits(digits[1..], rest);
    } else {
      assert digits + rest == rest;
    }
  }

  /** Only the digits read matter, not what follows them. */
  lemma {:induction false} DigitsValueOfPrefix(s: string, t: string, n: nat)
    requires n <= |s| && n <= |t| && s[..n] == t[..n]
    requires forall i | 0 <= i < n :: IsDigit(s[i])
    ensures forall i | 0 <= i < n :: IsDigit(t[i])
    ensures DigitsValue(s, n) == DigitsValue(t, n)
  {
    forall i | 0 <= i < n
      ensures s[i] == t[i]
    {
      assert s[..n][i] == s[i] && t[..n][i] == t[i];
    }
    if n > 0 {
      assert s[..n - 1] == s[..n][..n - 1];
      assert t[..n - 1] == t[..n][..n - 1];
      DigitsValueOfPrefix(s, t, n - 1);
    }
  }

  lemma {:induction false} DecimalValue(n: nat)
    ensures DigitsValue(Decimal(n), |Decimal(n)|) == n
  {
    if n >= 10 {
      var front := Decimal(n / 10);
      var s := Decimal(n);
      assert s == front + ['0' + ((n % 10) as char)];
      assert s[..|front|] == front[..|front|];
      DigitsValueOfPrefix(s, front, |front|);
      DecimalValue(n / 10);
    }
  }

  /** `std::stoi` reads back a decimal numeral that fits an `int`, and stops
      at the first character that is not a digit. */
  lemma StoiReadsDecimal(n: nat, rest: string)
    requires n <= 0x7FFF_FFFF && (|rest| == 0 || !IsDigit(rest[0]))
    ensures Stoi(Decimal(n) + rest) == Success(n)
  {
    var s := Decimal(n) + rest;
    assert s[0] == Decimal(n)[0];
    DigitCountOfDigits(Decimal(n), rest);
    assert s[..|Decimal(n)|] == Decimal(n)[..|Decimal(n)|];
    DigitsValueOfPrefix(Decimal(n), s, |Decimal(n)|);
    DecimalValue(n);
  }

  lemma StoiOfDecimal(n: nat)
    requires n <= 0x7FFF_FFFF
    ensures Stoi(Decimal(n)) == Success(n)
  {
    StoiReadsDecimal(n, "");
    assert Decimal(n) + "" == Decimal(n);
  }

  /** What `stoi` returns fits an `int`. */
  lemma StoiInRange(s: string)
    requires Stoi(s).Success?
    ensures -0x8000_0000 <= Stoi(s).value <= 0x7FFF_FFFF
  {
  }

  /** A word without digits is no number. */
  lemma StoiRejectsEmpty()
    ensures Stoi("") == Failure(InvalidArgument)
  {
  }

  // ---------------------------------------------------------------------
  // Face tokens

  /** No character of `s` is a slash. */
  predicate NoSlash(s: string)
  {
    forall i | 0 <= i < |s| :: s[i] != '/'
  }

  /** `find_first_of('/')`. */
  function FirstSlash(s: string): (i: nat)
    requires '/' in s
    ensures i < |s| && s[i] == '/'
    ensures forall k | 0 <= k < i :: s[k] != '/'
  {
    if s[0] == '/' then 0 else 1 + FirstSlash(s[1..])
  }

  /** `find_last_of('/')`. */
  function LastSlash(s: string): (i: nat)
    requires '/' in s
    ensures i < |s| && s[i] == '/'
    ensures forall k | i < k < |s| :: s[k] != '/'
  {
    if s[|s| - 1] == '/' then |s| - 1
    else
      assert '/' in s[..|s| - 1] by {
        var k :| 0 <= k < |s| && s[k] == '/';
        assert s[..|s| - 1][k] == '/';
      }
      LastSlash(s[..|s| - 1])
  }

  lemma NoSlashCount(s: string)
    requires NoSlash(s)
    ensures multiset(s)['/'] == 0
  {
    assert '/' !in s;
  }

  lemma SlashesAround(s: string, i: nat)
    requires i < |s|
    ensures multiset(s)['/'] == multiset(s[..i])['/'] + multiset(s[i..i + 1])['/'] + multiset(s[i + 1..])['/']
  {
    assert s == s[..i] + s[i..i + 1] + s[i + 1..];
  }

  /** With two slashes the first comes before the last. */
  lemma TwoSlashesApart(s: string)
    requires multiset(s)['/'] == 2
    ensures '/' in s && FirstSlash(s) < LastSlash(s)
  {
    assert '/' in multiset(s);
    var i := FirstSlash(s);
    SlashesAround(s, i);
    assert NoSlash(s[..i]);
    NoSlashCount(s[..i]);
    assert s[i..i + 1] == ['/'];
    assert '/' in multiset(s[i + 1..]);
    var m :| 0 <= m < |s[i + 1..]| && s[i + 1..][m] == '/';
    assert s[i + 1 + m] == '/';
  }

  /** The indices a face line has collected so far, in the order of its words. */
  datatype FaceIndices = FaceIndices(vertices: seq<int>, textureCoordinates: seq<int>)

  lemma MiddleSlice<T>(x: seq<T>, y: seq<T>, z: seq<T>)
    ensures (x + y + z)[|x|..|x| + |y|] == y
  {
  }

  lemma SplitAtOneSlash(w: string, i: nat)
    requires multiset(w)['/'] == 1 && '/' in w && FirstSlash(w) == i
    ensures SplitFaceWord(w) == WithTexture(w[..i], w[i + 1..])
  {
  }

  lemma SplitAtTwoSlashes(w: string, i: nat, j: nat)
    requires multiset(w)['/'] == 2 && '/' in w && FirstSlash(w) == i && LastSlash(w) == j
    ensures i < j && SplitFaceWord(w) == WithTexture(w[..i], w[i + 1..j])
  {
    TwoSlashesApart(w);
  }

  lemma SplitNoSlash(a: string)
    requires NoSlash(a)
    ensures SplitFaceWord(a) == VertexOnly(a)
  {
    NoSlashCount(a);
  }

  lemma FirstSlashIs(w: string, i: nat)
    requires i < |w| && w[i] == '/' && NoSlash(w[..i])
    ensures '/' in w && FirstSlash(w) == i
  {
  }

  lemma LastSlashIs(w: string, j: nat)
    requires j < |w| && w[j] == '/' && NoSlash(w[j + 1..])
    ensures '/' in w && LastSlash(w) == j
  {
  }

  /** The pieces of `a/b`. */
  lemma OneSlashPieces(a: string, b: string)
    ensures var w := a + "/" + b;
      && |w| == |a| + 1 + |b| && w[|a|] == '/' && w[..|a|] == a && w[|a| + 1..] == b
      && multiset(w)['/'] == multiset(a)['/'] + 1 + multiset(b)['/']
  {
    var w := a + "/" + b;
    assert w[..|a|] == a;
    assert w[|a| + 1..] == b;
    assert multiset(w) == multiset(a) + multiset("/") + multiset(b);
  }

  /** The pieces of `a/b/c`. */
  lemma TwoSlashPieces(a: string, b: string, c: string)
    ensures var w := a + "/" + b + "/" + c; var j := |a| + 1 + |b|;
      && |w| == j + 1 + |c| && w[|a|] == '/' && w[j] == '/'
      && w[..|a|] == a && w[|a| + 1..j] == b && w[j + 1..] == c
      && multiset(w)['/'] == multiset(a)['/'] + multiset(b)['/'] + multiset(c)['/'] + 2
  {
    var w := a + "/" + b + "/" + c;
    var j := |a| + 1 + |b|;
    OneSlashPieces(a, b);
    OneSlashPieces(a + "/" + b, c);
    assert w[..j][..|a|] == w[..|a|];
    assert w[..j][|a| + 1..] == w[|a| + 1..j];
  }

  /** `a/b` with no slash in `a` or `b`. */
  lemma SplitOneSlash(a: string, b: string)
    requires NoSlash(a) && NoSlash(b)
    ensures SplitFaceWord(a + "/" + b) == WithTexture(a, b)
  {
    var w := a + "/" + b;
    assert SplitFaceWord(w) == WithTexture(w[..|a|], w[|a| + 1..]) by {
      NoSlashCount(a);
      NoSlashCount(b);
      OneSlashPieces(a, b);
      FirstSlashIs(w, |a|);
      SplitAtOneSlash(w, |a|);
    }
    assert w[..|a|] == a && w[|a| + 1..] == b by {
      OneSlashPieces(a, b);
    }
  }

  /** `a/b/c` with no slash in `a`, `b` or `c`. */
  lemma SplitTwoSlashes(a: string, b: string, c: string)
    requires NoSlash(a) && NoSlash(b) && NoSlash(c)
    ensures SplitFaceWord(a + "/" + b + "/" + c) == WithTexture(a, b)
  {
    var w := a + "/" + b + "/" + c;
    var i, j := |a|, |a| + 1 + |b|;
    assert SplitFaceWord(w) == WithTexture(w[..i], w[i + 1..j]) by {
      NoSlashCount(a);
      NoSlashCount(b);
      NoSlashCount(c);
      TwoSlashPieces(a, b, c);
      FirstSlashIs(w, i);
      LastSlashIs(w, j);
      SplitAtTwoSlashes(w, i, j);
    }
    assert w[..i] == a && w[i + 1..j] == b by {
      TwoSlashPieces(a, b, c);
    }
  }

  lemma DoubleSlashIsTwoSlashes(a: string, c: string)
    ensures a + "//" + c == a + "/" + "" + "/" + c
  {
    assert "/" + "" + "/" == "//";
    assert a + "/" + "" + "/" + c == a + ("/" + "" + "/") + c;
  }

  /** `a//c` with no slash in `a` or `c`: nothing between the slashes. */
  lemma SplitDoubleSlash(a: string, c: string)
    requires NoSlash(a) && NoSlash(c)
    ensures SplitFaceWord(a + "//" + c) == WithTexture(a, "")
  {
    SplitTwoSlashes(a, "", c);
    DoubleSlashIsTwoSlashes(a, c);
  }

  /** What `stoi` is applied to in one word of a face line. */
  datatype FaceWordParts =
    | VertexOnly(vertex: string)                   // no slash: the whole word
    | WithTexture(vertex: string, texture: string) // the parts either side of the (first) slash
    | Ignored                                      // three or more slashes: nothing is read

  /** `v` has no slash; `v/t` splits at its slash; with two slashes the texture
      coordinate is what lies between them. */
  function SplitFaceWord(word: string): FaceWordParts
  {
    var slashes := multiset(word)['/'];
    if slashes == 0 then VertexOnly(word)
    else if slashes == 1 then
      assert '/' in multiset(word);
      var i := FirstSlash(word);
      WithTexture(word[..i], word[i + 1..])
    else if slashes == 2 then
      TwoSlashesApart(word);
      var i, j := FirstSlash(word), LastSlash(word);
      WithTexture(word[..i], word[i + 1..j])
    else Ignored
  }

  /** One word of a face line: the vertex index is read first, then the
      texture coordinate index, each appended to its list. */
  function ReadFaceWord(word: string, found: FaceIndices): Result<FaceIndices, StoiError>
  {
    match SplitFaceWord(word)
    case VertexOnly(vertex) =>
      var v :- Stoi(vertex);
      Success(found.(vertices := found.vertices + [v]))
    case WithTexture(vertex, texture) =>
      var v :- Stoi(vertex);
      var t :- Stoi(texture);
      Success(FaceIndices(found.vertices + [v], found.textureCoordinates + [t]))
    case Ignored => Success(found)
  }

  /** The words of a face line, left to right; the first `stoi` that throws ends the load. */
  function ReadFaceWords(words: seq<string>, found: FaceIndices): Result<FaceIndices, StoiError>
    decreases |words|
  {
    if |words| == 0 then Success(found)
    else
      var next :- ReadFaceWord(words[0], found);
      ReadFaceWords(words[1..], next)
  }

  /** `push_back` of an `int` into a `std::vector<size_t>`, then `--`: both wrap modulo 2^64. */
  function ToSize(v: int): uint64
  {
    v % 0x1_0000_0000_0000_0000
  }

  function Decrement(i: uint64): uint64
  {
    if i == 0 then 0xFFFF_FFFF_FFFF_FFFF else i - 1
  }

  /** One-based indices made zero-based. */
  function Decremented(indices: seq<int>): Indices3
    requires |indices| == 3
  {
    [Decrement(ToSize(indices[0])), Decrement(ToSize(indices[1])), Decrement(ToSize(indices[2]))]
  }

  /** A face line after its `f`: the face numbered `faceCount`, or `None` when
      the line does not name exactly three vertices with one texture
      coordinate each, where the loader gives up and returns null. */
  function ParseFace(words: seq<string>, faceCount: nat): Result<Option<MeshFace>, StoiError>
  {
    var found :- ReadFaceWords(words, FaceIndices([], []));
    if |found.vertices| != VerticesPerFace then Success(None)
    else if |found.vertices| != |found.textureCoordinates| then Success(None)
    else
      Success(Some(MeshFace(Decremented(found.vertices), Decremented(found.textureCoordinates),
                            FaceColors[faceCount % |FaceColors|])))
  }

  // ---------------------------------------------------------------------
  // Lines

  /** What `iss >> x >> y >> z` and `iss >> u >> v` make of the rest of a line. */
  datatype FloatReader = FloatReader(vertex: seq<string> -> RVec3, textureCoordinate: seq<string> -> RVec2)

  function FirstWord(line: string): string
  {
    var words := Words(line);
    if |words| == 0 then "" else words[0]
  }

  function RestWords(line: string): seq<string>
  {
    var words := Words(line);
    if |words| == 0 then [] else words[1..]
  }

  /** One line read into the mesh so far; `None` where the loader returns null. */
  function ReadLine(reader: FloatReader, line: string, mesh: ObjMesh): Result<Option<ObjMesh>, StoiError>
  {
    var prefix, rest := FirstWord(line), RestWords(line);
    if prefix == "v" then Success(Some(mesh.(vertices := mesh.vertices + [reader.vertex(rest)])))
    else if prefix == "vt" then
      Success(Some(mesh.(textureCoordinates := mesh.textureCoordinates + [reader.textureCoordinate(rest)])))
    else if prefix == "f" then
      var face :- ParseFace(rest, |mesh.faces|);
      if face.None? then Success(None) else Success(Some(mesh.(faces := mesh.faces + [face.value])))
    else Success(Some(mesh))
  }

  /** The remaining lines, in file order. */
  function ReadLines(reader: FloatReader, lines: seq<string>, mesh: ObjMesh): Result<Option<ObjMesh>, StoiError>
    decreases |lines|
  {
    if |lines| == 0 then Success(Some(mesh))
    else
      var next :- ReadLine(reader, lines[0], mesh);
      if next.None? then Success(None) else ReadLines(reader, lines[1..], next.value)
  }

  /** `FromObjFile` on the lines of the file, or on `None` when the file does
      not exist or cannot be opened. */
  function LoadObj(reader: FloatReader, file: Option<seq<string>>): Result<Option<ObjMesh>, StoiError>
  {
    if file.None? then Success(None) else ReadLines(reader, file.value, Mesh([], [], []))
  }

  // ---------------------------------------------------------------------
  // The loader's loops

  /** The token loop of a face line, then the in-place decrement of both index lists. */
  method ReadFaceLine(words: seq<string>, faceCount: nat) returns (r: Result<Option<MeshFace>, StoiError>)
    ensures r == ParseFace(words, faceCount)
  {
    var found := FaceIndices([], []);
    var k := 0;
    while k < |words|
      invariant 0 <= k <= |words|
      invariant ReadFaceWords(words, FaceIndices([], [])) == ReadFaceWords(words[k..], found)
    {
      assert words[k..][0] == words[k] && words[k..][1..] == words[k + 1..];
      var next := ReadFaceWord(words[k], found);
      if next.Failure? {
        return Failure(next.error);
      }
      found := next.value;
      k := k + 1;
    }
    var vertexIndices, textureCoordinateIndices := found.vertices, found.textureCoordinates;
    if |vertexIndices| != VerticesPerFace {
      return Success(None);
    }
    if |vertexIndices| != |textureCoordinateIndices| {
      return Success(None);
    }
    var vs, ts := ToZeroBased(vertexIndices, textureCoordinateIndices);
    return Success(Some(MeshFace(vs, ts, FaceColors[faceCount % |FaceColors|])));
  }

  /** The conversion loop of a face line: both index lists, stored as `size_t`,
      are decremented in place. */
  method ToZeroBased(vertexIndices: seq<int>, textureCoordinateIndices: seq<int>) returns (vs: Indices3, ts: Indices3)
    requires |vertexIndices| == 3 && |textureCoordinateIndices| == 3
    ensures vs == Decremented(vertexIndices) && ts == Decremented(textureCoordinateIndices)
  {
    var vertices: seq<uint64> := [ToSize(vertexIndices[0]), ToSize(vertexIndices[1]), ToSize(vertexIndices[2])];
    var textures: seq<uint64> :=
      [ToSize(textureCoordinateIndices[0]), ToSize(textureCoordinateIndices[1]), ToSize(textureCoordinateIndices[2])];
    for i := 0 to 3
      invariant |vertices| == 3 && |textures| == 3
      invariant forall j | 0 <= j < i :: vertices[j] == Decrement(ToSize(vertexIndices[j]))
      invariant forall j | i <= j < 3 :: vertices[j] == ToSize(vertexIndices[j])
      invariant forall j | 0 <= j < i :: textures[j] == Decrement(ToSize(textureCoordinateIndices[j]))
      invariant forall j | i <= j < 3 :: textures[j] == ToSize(textureCoordinateIndices[j])
    {
      vertices := vertices[i := Decrement(vertices[i])];
      textures := textures[i := Decrement(textures[i])];
    }
    vs, ts := vertices, textures;
  }

  /** The line loop of `FromObjFile`, appending to the three lists. */
  method FromObjFile(reader: FloatReader, file: Option<seq<string>>) returns (r: Result<Option<ObjMesh>, StoiError>)
    ensures r == LoadObj(reader, file)
  {
    if file.None? {
      return Success(None);
    }
    var lines := file.value;
    var vertices, textureCoordinates, faces := [], [], [];
    var k := 0;
    while k < |lines|
      invariant 0 <= k <= |lines|
      invariant LoadObj(reader, file) == ReadLines(reader, lines[k..], Mesh(vertices, textureCoordinates, faces))
    {
      assert lines[k..][0] == lines[k] && lines[k..][1..] == lines[k + 1..];
      var prefix, rest := FirstWord(lines[k]), RestWords(lines[k]);
      if prefix == "v" {
        vertices := vertices + [reader.vertex(rest)];
      } else if prefix == "vt" {
        textureCoordinates := textureCoordinates + [reader.textureCoordinate(rest)];
      } else if prefix == "f" {
        var face := ReadFaceLine(rest, |faces|);
        if face.Failure? {
          return Failure(face.error);
        }
        if face.value.None? {
          return Success(None);
        }
        faces := faces + [face.value.value];
      }
      k := k + 1;
    }
    return Success(Some(Mesh(vertices, textureCoordinates, faces)));
  }

  // ---------------------------------------------------------------------
  // Properties of the loader

  lemma DecimalHasNoSlash(n: nat)
    ensures NoSlash(Decimal(n))
  {
  }

  /** A word without slashes that `stoi` reads as `v`. */
  predicate IsNumeral(word: string, v: int)
  {
    NoSlash(word) && Stoi(word) == Success(v)
  }

  /** Decimal numerals that fit an `int` are such words. */
  lemma DecimalIsNumeral(n: nat)
    requires n <= 0x7FFF_FFFF
    ensures IsNumeral(Decimal(n), n)
  {
    DecimalHasNoSlash(n);
    StoiOfDecimal(n);
  }

  /** `v` alone adds a vertex index only. */
  lemma ReadsVertexWord(a: string, v: int, found: FaceIndices)
    requires IsNumeral(a, v)
    ensures ReadFaceWord(a, found) == Success(found.(vertices := found.vertices + [v]))
  {
    SplitNoSlash(a);
  }

  /** `v/t` adds the vertex and the texture coordinate index. */
  lemma ReadsPairWord(a: string, b: string, v: int, t: int, found: FaceIndices)
    requires IsNumeral(a, v) && IsNumeral(b, t)
    ensures ReadFaceWord(a + "/" + b, found)
      == Success(FaceIndices(found.vertices + [v], found.textureCoordinates + [t]))
  {
    SplitOneSlash(a, b);
  }

  /** `v/t/n` keeps the texture coordinate between the slashes and drops the normal. */
  lemma ReadsTripleWord(a: string, b: string, c: string, v: int, t: int, found: FaceIndices)
    requires IsNumeral(a, v) && IsNumeral(b, t) && NoSlash(c)
    ensures ReadFaceWord(a + "/" + b + "/" + c, found)
      == Success(FaceIndices(found.vertices + [v], found.textureCoordinates + [t]))
  {
    SplitTwoSlashes(a, b, c);
  }

  /** `v//n` has nothing between its slashes, so `stoi` throws on it. */
  lemma RejectsMissingTextureCoordinate(a: string, c: string, v: int, found: FaceIndices)
    requires IsNumeral(a, v) && NoSlash(c)
    ensures ReadFaceWord(a + "//" + c, found) == Failure(InvalidArgument)
  {
    SplitDoubleSlash(a, c);
    StoiRejectsEmpty();
  }

  /** A face line of `v/t` words. */
  function PairWords(numerals: seq<string>, textures: seq<string>): (r: seq<string>)
    requires |numerals| == |textures|
    ensures |r| == |numerals|
    ensures forall i | 0 <= i < |r| :: r[i] == numerals[i] + "/" + textures[i]
  {
    if |numerals| == 0 then [] else [numerals[0] + "/" + textures[0]] + PairWords(numerals[1..], textures[1..])
  }

  /** After a word that reads, the rest of the line reads on from its result. */
  lemma ReadFaceWordsStep(words: seq<string>, found: FaceIndices)
    requires |words| > 0 && ReadFaceWord(words[0], found).Success?
    ensures ReadFaceWords(words, found) == ReadFaceWords(words[1..], ReadFaceWord(words[0], found).value)
  {
  }

  lemma AppendEmpty<T>(s: seq<T>, e: seq<T>)
    requires |e| == 0
    ensures s + e == s
  {
  }

  lemma TailOfCons<T>(x: T, s: seq<T>)
    ensures ([x] + s)[1..] == s
  {
  }

  lemma EmptyAppend<T>(s: seq<T>)
    ensures [] + s == s
  {
  }

  lemma AppendFirst(front: seq<int>, s: seq<int>)
    requires |s| > 0
    ensures front + [s[0]] + s[1..] == front + s
  {
    assert s == [s[0]] + s[1..];
  }

  /** A face line of `v/t` words collects the vertices and texture coordinates in order. */
  lemma {:induction false} ReadsPairWords(numerals: seq<string>, textures: seq<string>, vs: seq<int>, ts: seq<int>,
                                          found: FaceIndices)
    requires |numerals| == |textures| == |vs| == |ts|
    requires forall i | 0 <= i < |numerals| :: IsNumeral(numerals[i], vs[i]) && IsNumeral(textures[i], ts[i])
    ensures ReadFaceWords(PairWords(numerals, textures), found)
      == Success(FaceIndices(found.vertices + vs, found.textureCoordinates + ts))
    decreases |numerals|
  {
    if |numerals| == 0 {
      AppendEmpty(found.vertices, vs);
      AppendEmpty(found.textureCoordinates, ts);
    } else {
      var words := PairWords(numerals, textures);
      var next := FaceIndices(found.vertices + [vs[0]], found.textureCoordinates + [ts[0]]);
      assert ReadFaceWords(words, found) == ReadFaceWords(PairWords(numerals[1..], textures[1..]), next) by {
        ReadsPairWord(numerals[0], textures[0], vs[0], ts[0], found);
        ReadFaceWordsStep(words, found);
        TailOfCons(numerals[0] + "/" + textures[0], PairWords(numerals[1..], textures[1..]));
      }
      ReadsPairWords(numerals[1..], textures[1..], vs[1..], ts[1..], next);
      AppendFirst(found.vertices, vs);
      AppendFirst(found.textureCoordinates, ts);
    }
  }

  /** A face line of `v` words collects vertices only. */
  lemma {:induction false} ReadsVertexWords(numerals: seq<string>, vs: seq<int>, found: FaceIndices)
    requires |numerals| == |vs|
    requires forall i | 0 <= i < |numerals| :: IsNumeral(numerals[i], vs[i])
    ensures ReadFaceWords(numerals, found) == Success(found.(vertices := found.vertices + vs))
    decreases |numerals|
  {
    if |numerals| == 0 {
      AppendEmpty(found.vertices, vs);
    } else {
      var next := found.(vertices := found.vertices + [vs[0]]);
      assert ReadFaceWords(numerals, found) == ReadFaceWords(numerals[1..], next) by {
        ReadsVertexWord(numerals[0], vs[0], found);
        ReadFaceWordsStep(numerals, found);
      }
      ReadsVertexWords(numerals[1..], vs[1..], next);
      AppendFirst(found.vertices, vs);
    }
  }

  /** The zero-based index of a positive one-based index, and the wrap below zero. */
  lemma DecrementedIndices(v: int)
    ensures 1 <= v <= 0x7FFF_FFFF ==> Decrement(ToSize(v)) == v - 1
    ensures v == 0 ==> Decrement(ToSize(v)) == 0xFFFF_FFFF_FFFF_FFFF
  {
  }

  /** A face line whose words all read is kept exactly when it names three
      vertices and as many texture coordinates. */
  lemma ParseFaceOfIndices(words: seq<string>, faceCount: nat, found: FaceIndices)
    requires ReadFaceWords(words, FaceIndices([], [])) == Success(found)
    ensures ParseFace(words, faceCount).Success?
    ensures ParseFace(words, faceCount).value.Some?
      <==> |found.vertices| == 3 && |found.textureCoordinates| == 3
    ensures ParseFace(words, faceCount).value.Some? ==>
      ParseFace(words, faceCount).value.value
        == MeshFace(Decremented(found.vertices), Decremented(found.textureCoordinates), FaceColors[faceCount % 6])
  {
  }

  /** Positive one-based indices become their predecessors. */
  lemma PositiveDecremented(indices: seq<int>)
    requires |indices| == 3 && forall k | 0 <= k < 3 :: 1 <= indices[k] <= 0x7FFF_FFFF
    ensures forall k | 0 <= k < 3 :: Decremented(indices)[k] == indices[k] - 1
  {
    DecrementedIndices(indices[0]);
    DecrementedIndices(indices[1]);
    DecrementedIndices(indices[2]);
  }

  /** A face of `v/t` words is accepted exactly when it has three of them; the
      stored indices are the numbers less one, and the colour is the
      `faceCount`-th of the six, cyclically. */
  lemma PairFace(numerals: seq<string>, textures: seq<string>, vs: seq<int>, ts: seq<int>, faceCount: nat)
    requires |numerals| == |textures| == |vs| == |ts|
    requires forall i | 0 <= i < |numerals| :: IsNumeral(numerals[i], vs[i]) && IsNumeral(textures[i], ts[i])
    requires forall i | 0 <= i < |numerals| :: 1 <= vs[i] <= 0x7FFF_FFFF && 1 <= ts[i] <= 0x7FFF_FFFF
    ensures ParseFace(PairWords(numerals, textures), faceCount).Success?
    ensures ParseFace(PairWords(numerals, textures), faceCount).value.Some? <==> |vs| == 3
    ensures |vs| == 3 ==>
      var face := ParseFace(PairWords(numerals, textures), faceCount).value.value;
      && (forall k | 0 <= k < 3 :: face.vertexIndices[k] == vs[k] - 1 && face.textureCoordinateIndices[k] == ts[k] - 1)
      && face.color == FaceColors[faceCount % 6]
  {
    var words := PairWords(numerals, textures);
    assert ReadFaceWords(words, FaceIndices([], [])) == Success(FaceIndices(vs, ts)) by {
      ReadsPairWords(numerals, textures, vs, ts, FaceIndices([], []));
      EmptyAppend(vs);
      EmptyAppend(ts);
    }
    ParseFaceOfIndices(words, faceCount, FaceIndices(vs, ts));
    if |vs| == 3 {
      PositiveDecremented(vs);
      PositiveDecremented(ts);
    }
  }

  /** A face without texture coordinates never loads: the loader returns null. */
  lemma SlashlessFaceIsRejected(numerals: seq<string>, vs: seq<int>, faceCount: nat)
    requires |numerals| == |vs|
    requires forall i | 0 <= i < |numerals| :: IsNumeral(numerals[i], vs[i])
    ensures ParseFace(numerals, faceCount) == Success(None)
  {
    assert ReadFaceWords(numerals, FaceIndices([], [])) == Success(FaceIndices(vs, [])) by {
      ReadsVertexWords(numerals, vs, FaceIndices([], []));
      EmptyAppend(vs);
    }
    ParseFaceOfIndices(numerals, faceCount, FaceIndices(vs, []));
  }

  /** Lines other than `v`, `vt` and `f` (`vn` among them) change nothing. */
  lemma OtherLinesChangeNothing(reader: FloatReader, line: string, mesh: ObjMesh)
    requires FirstWord(line) != "v" && FirstWord(line) != "vt" && FirstWord(line) != "f"
    ensures ReadLine(reader, line, mesh) == Success(Some(mesh))
  {
  }

  /** The vertices of the `v` lines, in file order. */
  function VertexLines(reader: FloatReader, lines: seq<string>): seq<RVec3>
  {
    if |lines| == 0 then []
    else (if FirstWord(lines[0]) == "v" then [reader.vertex(RestWords(lines[0]))] else [])
         + VertexLines(reader, lines[1..])
  }

  /** The texture coordinates of the `vt` lines, in file order. */
  function TextureCoordinateLines(reader: FloatReader, lines: seq<string>): seq<RVec2>
  {
    if |lines| == 0 then []
    else (if FirstWord(lines[0]) == "vt" then [reader.textureCoordinate(RestWords(lines[0]))] else [])
         + TextureCoordinateLines(reader, lines[1..])
  }

  /** Every face of `mesh` has the colour its position gives it. */
  predicate CyclicColours(mesh: ObjMesh)
  {
    forall i | 0 <= i < |mesh.faces| :: mesh.faces[i].color == FaceColors[i % 6]
  }

  lemma AppendAssociates<T>(a: seq<T>, b: seq<T>, c: seq<T>)
    ensures a + b + c == a + (b + c)
  {
  }

  /** One line keeps the colours cyclic and appends its vertex or texture coordinate. */
  lemma ReadLineAppends(reader: FloatReader, line: string, mesh: ObjMesh, next: ObjMesh)
    requires ReadLine(reader, line, mesh) == Success(Some(next))
    requires CyclicColours(mesh)
    ensures next.vertices
      == mesh.vertices + (if FirstWord(line) == "v" then [reader.vertex(RestWords(line))] else [])
    ensures next.textureCoordinates
      == mesh.textureCoordinates
         + (if FirstWord(line) == "vt" then [reader.textureCoordinate(RestWords(line))] else [])
    ensures CyclicColours(next)
  {
    var prefix := FirstWord(line);
    if prefix == "f" {
      var face := ParseFace(RestWords(line), |mesh.faces|).value.value;
      assert next.faces == mesh.faces + [face];
      assert face.color == FaceColors[|mesh.faces| % 6];
      assert next.vertices == mesh.vertices + [];
      assert next.textureCoordinates == mesh.textureCoordinates + [];
    } else if prefix == "v" {
      assert next.textureCoordinates == mesh.textureCoordinates + [];
    } else if prefix == "vt" {
      assert next.vertices == mesh.vertices + [];
    } else {
      assert next.vertices == mesh.vertices + [];
      assert next.textureCoordinates == mesh.textureCoordinates + [];
    }
  }

  /** A load that succeeds appends the `v` and `vt` lines in file order, and
      colours the faces cyclically by position. */
  lemma {:induction false} ReadLinesAppends(reader: FloatReader, lines: seq<string>, mesh: ObjMesh, result: ObjMesh)
    requires ReadLines(reader, lines, mesh) == Success(Some(result))
    requires CyclicColours(mesh)
    ensures result.vertices == mesh.vertices + VertexLines(reader, lines)
    ensures result.textureCoordinates == mesh.textureCoordinates + TextureCoordinateLines(reader, lines)
    ensures CyclicColours(result)
    decreases |lines|
  {
    if |lines| == 0 {
      assert mesh.vertices + [] == mesh.vertices;
      assert mesh.textureCoordinates + [] == mesh.textureCoordinates;
    } else {
      var step := ReadLine(reader, lines[0], mesh);
      assert step.Success? && step.value.Some?;
      var next := step.value.value;
      assert ReadLines(reader, lines[1..], next) == Success(Some(result));
      ReadLineAppends(reader, lines[0], mesh, next);
      ReadLinesAppends(reader, lines[1..], next, result);
      var v := if FirstWord(lines[0]) == "v" then [reader.vertex(RestWords(lines[0]))] else [];
      var t := if FirstWord(lines[0]) == "vt" then [reader.textureCoordinate(RestWords(lines[0]))] else [];
      AppendAssociates(mesh.vertices, v, VertexLines(reader, lines[1..]));
      AppendAssociates(mesh.textureCoordinates, t, TextureCoordinateLines(reader, lines[1..]));
    }
  }

  lemma LoadedMeshIsInFileOrder(reader: FloatReader, lines: seq<string>, result: ObjMesh)
    requires LoadObj(reader, Some(lines)) == Success(Some(result))
    ensures result.vertices == VertexLines(reader, lines)
    ensures result.textureCoordinates == TextureCoordinateLines(reader, lines)
    ensures forall i | 0 <= i < |result.faces| :: result.faces[i].color == FaceColors[i % 6]
  {
    ReadLinesAppends(reader, lines, Mesh([], [], []), result);
  }

  /** Reading two runs of lines is reading the first, then the second from
      where the first left the mesh. */
  lemma {:induction false} ReadLinesConcat(reader: FloatReader, front: seq<string>, back: seq<string>, mesh: ObjMesh)
    ensures ReadLines(reader, front + back, mesh)
      == match ReadLines(reader, front, mesh)
         case Failure(e) => Failure(e)
         case Success(None) => Success(None)
         case Success(Some(m)) => ReadLines(reader, back, m)
    decreases |front|
  {
    if |front| == 0 {
      assert front + back == back;
    } else {
      assert (front + back)[0] == front[0] && (front + back)[1..] == front[1..] + back;
      var step := ReadLine(reader, front[0], mesh);
      if step.Success? && step.value.Some? {
        ReadLinesConcat(reader, front[1..], back, step.value.value);
      }
    }
  }

  /** A face line the loader rejects (not three vertices, or texture
      coordinates not matching them) ends the whole load with null, whatever follows. */
  lemma RejectedFaceStopsLoad(reader: FloatReader, front: seq<string>, line: string, back: seq<string>, mesh: ObjMesh)
    requires LoadObj(reader, Some(front)) == Success(Some(mesh))
    requires FirstWord(line) == "f" && ParseFace(RestWords(line), |mesh.faces|) == Success(None)
    ensures LoadObj(reader, Some(front + [line] + back)) == Success(None)
  {
    ReadLinesConcat(reader, front, [line] + back, Mesh([], [], []));
    assert front + [line] + back == front + ([line] + back);
    assert ([line] + back)[0] == line;
  }

  /** A missing or unopenable file gives no mesh. */
  lemma MissingFileGivesNoMesh(reader: FloatReader)
    ensures LoadObj(reader, None) == Success(None)
  {
  }
  // ---------------------------------------------------------------------
  // Built-in meshes

  /** `Mesh::Cube()`: eight corners, two faces per side, no texture coordinates. */
  function Cube(): ObjMesh
  {
    Mesh([RVec3(-0.5, -0.5, -0.5), RVec3(0.5, -0.5, -0.5), RVec3(-0.5, 0.5, -0.5), RVec3(0.5, 0.5, -0.5),
          RVec3(-0.5, -0.5, 0.5), RVec3(0.5, -0.5, 0.5), RVec3(-0.5, 0.5, 0.5), RVec3(0.5, 0.5, 0.5)],
         [],
         [MeshFace([1, 0, 2], [0, 0, 0], 0), MeshFace([1, 2, 3], [0, 0, 0], 0),
          MeshFace([7, 6, 4], [0, 0, 0], 0), MeshFace([7, 4, 5], [0, 0, 0], 0),
          MeshFace([3, 2, 6], [0, 0, 0], 0), MeshFace([3, 6, 7], [0, 0, 0], 0),
          MeshFace([5, 4, 0], [0, 0, 0], 0), MeshFace([5, 0, 1], [0, 0, 0], 0),
          MeshFace([0, 4, 6], [0, 0, 0], 0), MeshFace([0, 6, 2], [0, 0, 0], 0),
          MeshFace([5, 1, 3], [0, 0, 0], 0), MeshFace([5, 3, 7], [0, 0, 0], 0)])
  }

  /** `Mesh::AdjoiningTriangles()`: a unit square split along a diagonal. */
  function AdjoiningTriangles(): ObjMesh
  {
    Mesh([RVec3(-0.5, -0.5, 0.0), RVec3(0.5, -0.5, 0.0), RVec3(-0.5, 0.5, 0.0), RVec3(0.5, 0.5, 0.0)],
         [RVec2(0.0, 0.0), RVec2(1.0, 0.0), RVec2(0.0, 1.0), RVec2(1.0, 1.0)],
         [MeshFace([2, 1, 0], [2, 1, 0], 0), MeshFace([2, 3, 1], [2, 3, 1], 0)])
  }

  lemma CubeShape()
    ensures |Cube().vertices| == 8 && |Cube().faces| == 12 && Cube().textureCoordinates == []
    ensures forall f, k | 0 <= f < 12 && 0 <= k < 3 :: Cube().faces[f].vertexIndices[k] < 8
  {
  }

  lemma AdjoiningTrianglesShape()
    ensures |AdjoiningTriangles().vertices| == 4 && |AdjoiningTriangles().textureCoordinates| == 4
    ensures |AdjoiningTriangles().faces| == 2
    ensures forall f | 0 <= f < 2 ::
      AdjoiningTriangles().faces[f].textureCoordinateIndices == AdjoiningTriangles().faces[f].vertexIndices
    ensures forall f, k | 0 <= f < 2 && 0 <= k < 3 :: AdjoiningTriangles().faces[f].vertexIndices[k] < 4
  {
  }
}

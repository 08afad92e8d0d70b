/** Names of published artifacts: blob paths, tile set ids, the gateway's request paths and
  * redirect URLs (backend/shared/src/slippy_tiles.rs, backend/processing-svc/src/manifest.rs,
  * backend/processing-svc/src/process/message.rs, backend/api-gateway/src/). */
module ArtifactNames {
  import opened Wrappers
  import opened SlippyTiles

  datatype NameError =
    | InvalidTileSetId
    | Coordinate(error: TileMathError)
    | LatestManifestSelected
    | ManifestPathMismatch
    | InvalidTilePath

  // --------------------------------------------------------------------------- decimal numbers

  predicate IsDigit(c: char) {
    '0' <= c <= '9'
  }

  function Decimal(n: nat): (s: string)
    ensures |s| > 0 && forall i | 0 <= i < |s| :: IsDigit(s[i])
  {
    var last := ['0' + (n % 10) as char];
    if n < 10 then last else Decimal(n / 10) + last
  }

  predicate AllDigits(s: string) {
    forall i | 0 <= i < |s| :: IsDigit(s[i])
  }

  function DecimalValue(s: string): nat
    requires AllDigits(s)
  {
    if s == [] then 0 else DecimalValue(s[..|s| - 1]) * 10 + (s[|s| - 1] - '0') as nat
  }

  lemma {:induction false} DecimalRoundTrip(n: nat)
    ensures DecimalValue(Decimal(n)) == n
  {
    var s := Decimal(n);
    if n >= 10 {
      assert s[..|s| - 1] == Decimal(n / 10);
      DecimalRoundTrip(n / 10);
    }
  }

  lemma DecimalInjective(a: nat, b: nat)
    requires Decimal(a) == Decimal(b)
    ensures a == b
  {
    DecimalRoundTrip(a);
    DecimalRoundTrip(b);
  }

  /** Parsing an unsigned integer: one optional plus sign, then digits, within the type's range. */
  function ParseUnsigned(s: string, max: nat): Option<nat> {
    var digits := if |s| > 1 && s[0] == '+' then s[1..] else s;
    if digits != [] && AllDigits(digits) && DecimalValue(digits) <= max then Some(DecimalValue(digits)) else None
  }

  // --------------------------------------------------------------------------------- blob paths

  /** The code points with the Unicode White_Space property. */
  predicate IsWhitespace(c: char) {
    var p := c as int;
    || 9 <= p <= 13 || p == 0x20 || p == 0x85 || p == 0xA0 || p == 0x1680 || 0x2000 <= p <= 0x200A
    || p == 0x2028 || p == 0x2029 || p == 0x202F || p == 0x205F || p == 0x3000
  }

  predicate HasTwoDots(s: string) {
    exists i | 0 <= i < |s| - 1 :: s[i] == '.' && s[i + 1] == '.'
  }

  predicate ValidTileSetId(id: string) {
    && (exists i | 0 <= i < |id| :: !IsWhitespace(id[i]))
    && '/' !in id && '\\' !in id && !HasTwoDots(id)
    && !("processed-tiles" <= id)
  }

  function TileBlobPath(id: string, c: TileCoord): Result<string, NameError> {
    if !ValidTileSetId(id) then Failure(InvalidTileSetId)
    else
      match ValidateTileCoord(c)
      case Failure(error) => Failure(Coordinate(error))
      case Success(_) =>
        Success("tiles/" + id + "/" + Decimal(c.z) + "/" + Decimal(c.x) + "/" + Decimal(c.y) + ".png")
  }

  function ManifestBlobPath(id: string): Result<string, NameError> {
    if !ValidTileSetId(id) then Failure(InvalidTileSetId) else Success("manifests/" + id + ".json")
  }

  const LATEST_MANIFEST_BLOB_PATH := "manifests/latest.json"

  function TileSetPrefix(id: string): Result<string, NameError> {
    var _ :- ManifestBlobPath(id);
    Success("tiles/" + id + "/")
  }

  /** The check retention makes before it deletes a candidate's manifest. */
  function ValidateManifestPath(id: string, manifestBlobPath: string): Result<(), NameError> {
    if manifestBlobPath == LATEST_MANIFEST_BLOB_PATH then Failure(LatestManifestSelected)
    else
      var expected :- ManifestBlobPath(id);
      if manifestBlobPath != expected then Failure(ManifestPathMismatch) else Success(())
  }

  lemma FirstSlash(a: string, s: string, b: string, t: string)
    requires '/' !in a && '/' !in b && a + "/" + s == b + "/" + t
    ensures a == b && s == t
  {
    var whole := a + "/" + s;
    assert whole[|a|] == '/' && whole[|b|] == '/';
    assert whole[..|a|] == a && whole[|a| + 1..] == s;
    assert whole[..|b|] == b && whole[|b| + 1..] == t;
  }

  lemma TilePathSplits(id: string, c: TileCoord)
    requires TileBlobPath(id, c).Success?
    ensures
      var levels := Decimal(c.z) + "/" + (Decimal(c.x) + "/" + (Decimal(c.y) + ".png"));
      TileBlobPath(id, c).value == "tiles/" + (id + "/" + levels)
  {
  }

  /** No two tiles share a path: it determines the tile set and the coordinate. */
  lemma TileBlobPathInjective(a: string, c: TileCoord, b: string, d: TileCoord)
    requires TileBlobPath(a, c).Success? && TileBlobPath(a, c) == TileBlobPath(b, d)
    ensures a == b && c == d
  {
    TilePathSplits(a, c);
    TilePathSplits(b, d);
    hide TileBlobPath, Decimal;
    var p := TileBlobPath(a, c).value;
    var ya, yb := Decimal(c.y) + ".png", Decimal(d.y) + ".png";
    var xa, xb := Decimal(c.x) + "/" + ya, Decimal(d.x) + "/" + yb;
    var za, zb := Decimal(c.z) + "/" + xa, Decimal(d.z) + "/" + xb;
    assert p[6..] == a + "/" + za == b + "/" + zb;
    FirstSlash(a, za, b, zb);
    FirstSlash(Decimal(c.z), xa, Decimal(d.z), xb);
    FirstSlash(Decimal(c.x), ya, Decimal(d.x), yb);
    assert ya[..|ya| - 4] == Decimal(c.y) && yb[..|yb| - 4] == Decimal(d.y);
    DecimalInjective(c.z, d.z);
    DecimalInjective(c.x, d.x);
    DecimalInjective(c.y, d.y);
  }

  /** The prefix retention lists for one tile set matches the tiles of that set and of no other. */
  lemma PrefixMatchesOwnTiles(id: string, owner: string, c: TileCoord)
    requires TileSetPrefix(id).Success? && TileBlobPath(owner, c).Success?
    ensures TileSetPrefix(id).value <= TileBlobPath(owner, c).value <==> id == owner
  {
    TilePathSplits(owner, c);
    hide TileBlobPath, Decimal;
    var prefix, path := TileSetPrefix(id).value, TileBlobPath(owner, c).value;
    var levels := Decimal(c.z) + "/" + (Decimal(c.x) + "/" + (Decimal(c.y) + ".png"));
    assert path == "tiles/" + owner + "/" + levels;
    if prefix <= path {
      assert path == prefix + path[|prefix|..];
      var rest := path[|prefix|..];
      assert path[6..] == id + "/" + rest == owner + "/" + levels;
      FirstSlash(id, rest, owner, levels);
    }
  }

  /** What one cleanup may delete: everything under the prefix of the candidate, and the
    * candidate's manifest once its path has been checked. */
  ghost predicate Deletes(id: string, manifestBlobPath: string, path: string) {
    && TileSetPrefix(id).Success? && ValidateManifestPath(id, manifestBlobPath).Success?
    && (TileSetPrefix(id).value <= path || path == manifestBlobPath)
  }

  /** Cleaning one tile set up never deletes a tile or the manifest of another, nor the latest
    * pointer, and it may delete every tile and the manifest of its own. */
  lemma CleanupStaysInside(id: string, manifestBlobPath: string, owner: string, c: TileCoord)
    requires TileSetPrefix(id).Success? && ValidateManifestPath(id, manifestBlobPath).Success?
    requires TileBlobPath(owner, c).Success?
    ensures Deletes(id, manifestBlobPath, TileBlobPath(owner, c).value) <==> id == owner
    ensures Deletes(id, manifestBlobPath, ManifestBlobPath(owner).value) <==> id == owner
    ensures !Deletes(id, manifestBlobPath, LATEST_MANIFEST_BLOB_PATH)
  {
    PrefixMatchesOwnTiles(id, owner, c);
    ManifestPathInjective(id, owner);
    var prefix, tile, manifest := TileSetPrefix(id).value, TileBlobPath(owner, c).value, ManifestBlobPath(owner).value;
    assert prefix[0] == tile[0] == 't' && manifest[0] == manifestBlobPath[0] == 'm';
    assert LATEST_MANIFEST_BLOB_PATH[0] == 'm';
  }

  lemma ManifestPathInjective(a: string, b: string)
    requires ValidTileSetId(a) && ValidTileSetId(b)
    ensures ManifestBlobPath(a) == ManifestBlobPath(b) <==> a == b
  {
    var p, q := "manifests/" + a + ".json", "manifests/" + b + ".json";
    assert p[10..|p| - 5] == a && q[10..|q| - 5] == b;
  }

  /** A manifest is written over the latest pointer exactly for the tile set id "latest". */
  lemma OnlyLatestHidesPointer(id: string)
    requires ValidTileSetId(id)
    ensures ManifestBlobPath(id).value == LATEST_MANIFEST_BLOB_PATH <==> id == "latest"
  {
    var p := "manifests/" + id + ".json";
    assert p[10..|p| - 5] == id;
    var q := LATEST_MANIFEST_BLOB_PATH;
    assert q[10..|q| - 5] == "latest";
    assert q == "manifests/" + "latest" + ".json";
  }

  // --------------------------------------------------------------------- ids of generated sets

  datatype Date = Date(year: nat, month: nat, day: nat) {
    predicate Valid() {
      year < 10000 && 1 <= month <= 12 && 1 <= day <= 31
    }
  }

  /** The low decimal digits of n, zero-padded. */
  function Padded(n: nat, width: nat): (s: string)
    ensures |s| == width && AllDigits(s)
  {
    if width == 0 then "" else Padded(n / 10, width - 1) + ['0' + (n % 10) as char]
  }

  function DateText(d: Date): (s: string)
    ensures |s| == 10 && IsDigit(s[0]) && s[9] != '.' && !HasTwoDots(s) && '/' !in s && '\\' !in s
  {
    var year, month, day := Padded(d.year, 4), Padded(d.month, 2), Padded(d.day, 2);
    year + "-" + month + "-" + day
  }

  /** The first eight hexadecimal digits of the ingest id. */
  predicate IsIngestPrefix(s: string) {
    |s| == 8 && forall i | 0 <= i < 8 :: IsDigit(s[i]) || 'a' <= s[i] <= 'f'
  }

  function TileSetIdForMessage(date: Date, version: string, ingestPrefix: string, attempt: int): string {
    DateText(date) + "-" + version + "-" + ingestPrefix + "-a" + Decimal(Max(attempt, 1))
  }

  lemma {:induction false} PaddedInjective(a: nat, b: nat, width: nat, bound: nat)
    requires a < bound && b < bound && Padded(a, width) == Padded(b, width)
    requires (width == 1 && bound == 10) || (width == 2 && bound == 100) || (width == 4 && bound == 10000)
             || (width == 3 && bound == 1000)
    ensures a == b
  {
    var p, q := Padded(a, width), Padded(b, width);
    assert p[..width - 1] == Padded(a / 10, width - 1) && q[..width - 1] == Padded(b / 10, width - 1);
    assert p[width - 1] == q[width - 1];
    if width > 1 {
      PaddedInjective(a / 10, b / 10, width - 1, bound / 10);
    }
  }

  lemma DateTextInjective(a: Date, b: Date)
    requires a.Valid() && b.Valid() && DateText(a) == DateText(b)
    ensures a == b
  {
    hide Padded;
    var p, q := DateText(a), DateText(b);
    assert p[..4] == Padded(a.year, 4) && p[5..7] == Padded(a.month, 2) && p[8..] == Padded(a.day, 2);
    assert q[..4] == Padded(b.year, 4) && q[5..7] == Padded(b.month, 2) && q[8..] == Padded(b.day, 2);
    PaddedInjective(a.year, b.year, 4, 10000);
    PaddedInjective(a.month, b.month, 2, 100);
    PaddedInjective(a.day, b.day, 2, 100);
  }

  /** The last dash of head + "-a" + digits is the one written there. */
  lemma LastDash(p: string, m: nat, q: string, n: nat)
    requires p + "-a" + Decimal(m) == q + "-a" + Decimal(n)
    ensures p == q && m == n
  {
    hide Decimal;
    var x, y := Decimal(m), Decimal(n);
    var whole := p + "-a" + x;
    assert whole[|p|] == '-' && whole[|q|] == '-';
    assert forall i | |p| < i < |whole| :: whole[i] != '-';
    assert forall i | |q| < i < |whole| :: whole[i] != '-';
    assert |p| == |q|;
    assert whole[..|p|] == p && whole[..|q|] == q;
    assert whole[|p| + 2..] == x && whole[|q| + 2..] == y;
    DecimalInjective(m, n);
  }

  /** Two ids are the same exactly when date, version, ingest prefix and attempt are.  So two
    * attempts of one ingest never share an id, while two ingests of one day whose ids begin
    * with the same eight digits do. */
  lemma TileSetIdDetermines(d: Date, v: string, i: string, a: int, e: Date, w: string, j: string, b: int)
    requires d.Valid() && e.Valid() && IsIngestPrefix(i) && IsIngestPrefix(j)
    ensures TileSetIdForMessage(d, v, i, a) == TileSetIdForMessage(e, w, j, b)
            <==> d == e && v == w && i == j && Max(a, 1) == Max(b, 1)
  {
    hide DateText, Decimal;
    if TileSetIdForMessage(d, v, i, a) == TileSetIdForMessage(e, w, j, b) {
      var p, q := DateText(d) + "-" + v + "-" + i, DateText(e) + "-" + w + "-" + j;
      LastDash(p, Max(a, 1), q, Max(b, 1));
      assert p[..10] == DateText(d) && q[..10] == DateText(e);
      assert p[|p| - 8..] == i && q[|q| - 8..] == j;
      assert p[11..|p| - 9] == v && q[11..|q| - 9] == w;
      DateTextInjective(d, e);
    }
  }

  /** A generated id is accepted by the publisher exactly when the configured version could
    * stand in a path, and it is never "latest". */
  lemma GeneratedIdValid(d: Date, version: string, prefix: string, attempt: int)
    requires IsIngestPrefix(prefix)
    ensures
      var id := TileSetIdForMessage(d, version, prefix, attempt);
      && (ValidTileSetId(id) <==> '/' !in version && '\\' !in version && !HasTwoDots(version))
      && id != "latest"
  {
    var id := TileSetIdForMessage(d, version, prefix, attempt);
    IdParts(d, version, prefix, attempt);
    hide TileSetIdForMessage, DateText;
    assert !IsWhitespace(id[0]);
    assert forall c | c in version :: c in id by {
      assert forall k | 0 <= k < |version| :: version[k] == id[11 + k];
    }
    if HasTwoDots(version) {
      var k :| 0 <= k < |version| - 1 && version[k] == '.' && version[k + 1] == '.';
      assert id[11 + k] == '.' && id[11 + k + 1] == '.';
    }
  }

  lemma IdParts(d: Date, version: string, prefix: string, attempt: int)
    requires IsIngestPrefix(prefix)
    ensures
      var id := TileSetIdForMessage(d, version, prefix, attempt);
      && |id| >= 23 + |version| && IsDigit(id[0])
      && id[11..11 + |version|] == version
      && (forall k | 0 <= k < |id| :: !(11 <= k < 11 + |version|) ==>
            IsDigit(id[k]) || id[k] == '-' || 'a' <= id[k] <= 'f')
      && id[10] == '-' && id[11 + |version|] == '-'
  {
    hide Decimal;
    DateCharacters(d);
    var x := Decimal(Max(attempt, 1));
    var id := TileSetIdForMessage(d, version, prefix, attempt);
    assert id == DateText(d) + "-" + version + ("-" + prefix + "-a" + x);
    hide DateText;
  }

  lemma DateCharacters(d: Date)
    ensures forall k | 0 <= k < 10 :: IsDigit(DateText(d)[k]) || DateText(d)[k] == '-'
  {
  }

  const MAX_TILE_SET_ID_LENGTH := 160

  predicate GatewayCharacter(c: char) {
    IsDigit(c) || 'a' <= c <= 'z' || 'A' <= c <= 'Z' || c == '.' || c == '_' || c == '-'
  }

  /** The gateway's own check of a requested tile set id. */
  predicate GatewayValidTileSetId(id: string) {
    && (exists i | 0 <= i < |id| :: !IsWhitespace(id[i]))
    && |id| <= MAX_TILE_SET_ID_LENGTH
    && (forall i | 0 <= i < |id| :: GatewayCharacter(id[i]))
    && !HasTwoDots(id) && !("processed-tiles" <= id)
  }

  /** The gateway refuses a published id exactly for its length or a character of the version. */
  lemma GatewayAcceptsPublishedId(d: Date, version: string, prefix: string, attempt: int)
    requires IsIngestPrefix(prefix) && ValidTileSetId(TileSetIdForMessage(d, version, prefix, attempt))
    ensures
      var id := TileSetIdForMessage(d, version, prefix, attempt);
      GatewayValidTileSetId(id) <==>
        |id| <= MAX_TILE_SET_ID_LENGTH && forall k | 0 <= k < |version| :: GatewayCharacter(version[k])
  {
    var id := TileSetIdForMessage(d, version, prefix, attempt);
    IdParts(d, version, prefix, attempt);
    hide TileSetIdForMessage;
    assert forall k | 0 <= k < |version| :: version[k] == id[11 + k];
    forall k | 0 <= k < |id| && 11 <= k < 11 + |version| ensures id[k] == version[k - 11] {
      assert id[11 + (k - 11)] == version[k - 11];
    }
  }

  // ------------------------------------------------------------------- requests and redirects

  predicate EndsWithPng(s: string) {
    |s| >= 4 && s[|s| - 4..] == ".png"
  }

  /** Removes every trailing ".png". */
  function TrimEndPng(s: string): string {
    if EndsWithPng(s) then TrimEndPng(s[..|s| - 4]) else s
  }

  function ParseTileCoord(z: string, x: string, tileFile: string): Result<TileCoord, NameError> {
    if '/' in tileFile || !EndsWithPng(tileFile) then Failure(InvalidTilePath)
    else
      var y := TrimEndPng(tileFile);
      var level, column, row := ParseUnsigned(z, 255), ParseUnsigned(x, U32_MAX), ParseUnsigned(y, U32_MAX);
      if y == "" || level.None? || column.None? || row.None? then Failure(InvalidTilePath)
      else
        var c := TileCoord(level.value, column.value, row.value);
        match ValidateTileCoord(c)
        case Failure(error) => Failure(Coordinate(error))
        case Success(_) => Success(c)
  }

  lemma ParseDecimal(n: nat, max: nat)
    requires n <= max
    ensures ParseUnsigned(Decimal(n), max) == Some(n)
  {
    DecimalRoundTrip(n);
    var s := Decimal(n);
    assert IsDigit(s[0]) && AllDigits(s);
    hide Decimal;
  }

  /** The gateway reads back every coordinate from the last three parts of its tile path. */
  lemma ParsePublishedPath(c: TileCoord)
    requires ValidateTileCoord(c).Success?
    ensures ParseTileCoord(Decimal(c.z), Decimal(c.x), Decimal(c.y) + ".png") == Success(c)
  {
    Pow2Bound(c.z);
    ParseDecimal(c.z, 255);
    ParseDecimal(c.x, U32_MAX);
    ParseDecimal(c.y, U32_MAX);
    hide Decimal, ParseUnsigned, Pow2;
    var y := Decimal(c.y);
    var file := y + ".png";
    assert file[|file| - 4..] == ".png" && file[..|file| - 4] == y;
    assert IsDigit(y[|y| - 1]);
    assert !EndsWithPng(y);
    assert TrimEndPng(file) == TrimEndPng(y) == y;
  }

  function TrimEndSlashes(s: string): string {
    if s != "" && s[|s| - 1] == '/' then TrimEndSlashes(s[..|s| - 1]) else s
  }

  function BuildTileUrlTemplate(cdnBaseUrl: string, id: string): Result<string, NameError> {
    var _ :- ManifestBlobPath(id);
    Success(TrimEndSlashes(cdnBaseUrl) + "/tiles/" + id + "/{z}/{x}/{y}.png")
  }

  /** Every occurrence of pattern, from the left and not overlapping, becomes to. */
  function Replace(s: string, pattern: string, to: string): string
    requires pattern != ""
  {
    if |s| < |pattern| then s
    else if s[..|pattern|] == pattern then to + Replace(s[|pattern|..], pattern, to)
    else [s[0]] + Replace(s[1..], pattern, to)
  }

  function RedirectUrl(template: string, c: TileCoord): string {
    Replace(Replace(Replace(template, "{z}", Decimal(c.z)), "{x}", Decimal(c.x)), "{y}", Decimal(c.y))
  }

  lemma {:induction false} ReplaceAbsent(s: string, pattern: string, k: nat, to: string)
    requires k < |pattern| && pattern[k] !in s
    ensures Replace(s, pattern, to) == s
  {
    if |s| >= |pattern| {
      assert s[..|pattern|][k] == s[k];
      ReplaceAbsent(s[1..], pattern, k, to);
    }
  }

  // A placeholder holds no slash, so it never reaches across one; and each one that is filled takes a
  // brace away.

  ghost predicate OccursAt(pattern: string, s: string, k: nat) {
    k + |pattern| <= |s| && s[k..k + |pattern|] == pattern
  }

  ghost predicate Occurs(pattern: string, s: string) {
    exists k: nat :: OccursAt(pattern, s, k)
  }

  ghost predicate HasPlaceholder(s: string) {
    Occurs("{z}", s) || Occurs("{x}", s) || Occurs("{y}", s)
  }

  lemma OccursShifted(pattern: string, before: string, s: string, k: nat)
    requires OccursAt(pattern, s, k)
    ensures OccursAt(pattern, before + s, |before| + k)
  {
    assert (before + s)[|before| + k..|before| + k + |pattern|] == s[k..k + |pattern|];
  }

  lemma OccursInPrefix(pattern: string, s: string, after: string, k: nat)
    requires OccursAt(pattern, s, k)
    ensures OccursAt(pattern, s + after, k)
  {
    assert (s + after)[k..k + |pattern|] == s[k..k + |pattern|];
  }

  lemma OccursOnOneSide(pattern: string, a: string, b: string, k: nat)
    requires '/' !in pattern && pattern != "" && OccursAt(pattern, a + "/" + b, k)
    ensures Occurs(pattern, a) || Occurs(pattern, b)
  {
    var s, end := a + "/" + b, k + |pattern|;
    assert s[|a|] == '/';
    OccursBetween(pattern, s, k, |a|);
    if end <= |a| {
      assert s[k..end] == a[k..end];
      assert OccursAt(pattern, a, k);
    } else {
      var i := k - |a| - 1;
      assert s[k..end] == b[i..i + |pattern|];
      assert OccursAt(pattern, b, i);
    }
  }

  lemma OccursBetween(pattern: string, s: string, k: nat, j: nat)
    requires OccursAt(pattern, s, k) && j < |s| && s[j] !in pattern
    ensures j < k || k + |pattern| <= j
  {
    forall i | k <= i < k + |pattern| ensures s[i] == pattern[i - k] {
      assert s[i] == s[k..k + |pattern|][i - k];
    }
  }

  lemma OccursSplits(pattern: string, a: string, b: string)
    requires '/' !in pattern && pattern != ""
    ensures Occurs(pattern, a + "/" + b) <==> Occurs(pattern, a) || Occurs(pattern, b)
  {
    if k: nat :| OccursAt(pattern, a + "/" + b, k) {
      OccursOnOneSide(pattern, a, b, k);
    }
    if k: nat :| OccursAt(pattern, a, k) {
      OccursInPrefix(pattern, a, "/" + b, k);
      assert a + ("/" + b) == a + "/" + b;
    }
    if k: nat :| OccursAt(pattern, b, k) {
      OccursShifted(pattern, a + "/", b, k);
    }
  }

  lemma {:induction false} ReplaceSplits(a: string, b: string, pattern: string, to: string)
    requires '/' !in pattern && pattern != ""
    ensures Replace(a + "/" + b, pattern, to) == Replace(a, pattern, to) + "/" + Replace(b, pattern, to)
  {
    hide Replace;
    var s, n := a + "/" + b, |pattern|;
    if StartsWith(a, pattern) {
      ReplaceHit(a, pattern, to);
      ReplaceHit(s, pattern, to);
      ReplaceSplits(a[n..], b, pattern, to);
      assert s[n..] == a[n..] + "/" + b;
      assert to + (Replace(a[n..], pattern, to) + "/" + Replace(b, pattern, to))
          == to + Replace(a[n..], pattern, to) + "/" + Replace(b, pattern, to);
    } else {
      NoStart(a, b, pattern);
      ReplaceMiss(s, pattern, to);
      if a == "" {
        ReplaceNothing(pattern, to);
        assert s[0] == '/' && s[1..] == b;
      } else {
        ReplaceMiss(a, pattern, to);
        ReplaceSplits(a[1..], b, pattern, to);
        assert s[0] == a[0] && s[1..] == a[1..] + "/" + b;
        assert [a[0]] + (Replace(a[1..], pattern, to) + "/" + Replace(b, pattern, to))
            == [a[0]] + Replace(a[1..], pattern, to) + "/" + Replace(b, pattern, to);
      }
    }
  }

  predicate StartsWith(s: string, pattern: string) {
    |s| >= |pattern| && s[..|pattern|] == pattern
  }

  lemma NoStart(a: string, b: string, pattern: string)
    requires '/' !in pattern && !StartsWith(a, pattern)
    ensures !StartsWith(a + "/" + b, pattern)
  {
    var s := a + "/" + b;
    if |a| >= |pattern| {
      assert s[..|pattern|] == a[..|pattern|];
    } else {
      assert s[|a|] == '/';
      assert |s| >= |pattern| ==> s[..|pattern|][|a|] == '/';
    }
  }

  lemma ReplaceHit(s: string, pattern: string, to: string)
    requires pattern != "" && |s| >= |pattern| && s[..|pattern|] == pattern
    ensures Replace(s, pattern, to) == to + Replace(s[|pattern|..], pattern, to)
  {
  }

  lemma ReplaceMiss(s: string, pattern: string, to: string)
    requires pattern != "" && s != "" && !StartsWith(s, pattern)
    ensures Replace(s, pattern, to) == [s[0]] + Replace(s[1..], pattern, to)
  {
  }

  lemma ReplaceNothing(pattern: string, to: string)
    requires pattern != ""
    ensures Replace("", pattern, to) == ""
  {
  }

  function Braces(s: string): nat {
    if s == "" then 0 else (if s[0] == '{' then 1 else 0) + Braces(s[1..])
  }

  lemma {:induction false} BracesSum(a: string, b: string)
    ensures Braces(a + b) == Braces(a) + Braces(b)
  {
    if a == "" {
      assert a + b == b;
    } else {
      BracesSum(a[1..], b);
      assert (a + b)[1..] == a[1..] + b;
    }
  }

  lemma {:induction false} NoBraces(s: string)
    requires '{' !in s
    ensures Braces(s) == 0
  {
    if s != "" {
      NoBraces(s[1..]);
    }
  }

  /** Filling a placeholder with text without braces leaves fewer braces, or nothing to fill. */
  lemma {:induction false} ReplaceTakesBraces(s: string, letter: char, to: string)
    requires '{' !in to && letter != '{'
    ensures
      var pattern := ['{', letter, '}'];
      if Occurs(pattern, s) then Braces(Replace(s, pattern, to)) < Braces(s) else Replace(s, pattern, to) == s
  {
    var pattern := ['{', letter, '}'];
    if |s| >= 3 && s[..3] == pattern {
      assert OccursAt(pattern, s, 0);
      ReplaceTakesBraces(s[3..], letter, to);
      assert s == pattern + s[3..];
      BracesSum(pattern, s[3..]);
      BracesSum(to, Replace(s[3..], pattern, to));
      NoBraces(to);
      assert Braces(pattern) == 1 by {
        assert pattern == "{" + [letter, '}'];
        NoBraces([letter, '}']);
      }
    } else if |s| >= 3 {
      ReplaceTakesBraces(s[1..], letter, to);
      BracesSum([s[0]], Replace(s[1..], pattern, to));
      OccursLater(pattern, s);
      assert s == [s[0]] + s[1..];
    } else {
      assert !Occurs(pattern, s);
    }
  }

  lemma OccursLater(pattern: string, s: string)
    requires s != "" && !OccursAt(pattern, s, 0)
    ensures Occurs(pattern, s) <==> Occurs(pattern, s[1..])
  {
    if k: nat :| OccursAt(pattern, s, k) {
      assert k > 0 && s[1..][k - 1..k - 1 + |pattern|] == s[k..k + |pattern|];
      assert OccursAt(pattern, s[1..], k - 1);
    }
    if k: nat :| OccursAt(pattern, s[1..], k) {
      OccursShifted(pattern, [s[0]], s[1..], k);
      assert [s[0]] + s[1..] == s;
    }
  }

  function Fill(s: string, z: string, x: string, y: string): string {
    Replace(Replace(Replace(s, "{z}", z), "{x}", x), "{y}", y)
  }

  lemma FillSplits(a: string, b: string, z: string, x: string, y: string)
    ensures Fill(a + "/" + b, z, x, y) == Fill(a, z, x, y) + "/" + Fill(b, z, x, y)
  {
    hide Replace;
    ReplaceSplits(a, b, "{z}", z);
    ReplaceSplits(Replace(a, "{z}", z), Replace(b, "{z}", z), "{x}", x);
    ReplaceSplits(Replace(Replace(a, "{z}", z), "{x}", x), Replace(Replace(b, "{z}", z), "{x}", x), "{y}", y);
  }

  /** Filling changes exactly the texts that hold a placeholder. */
  lemma FillChanges(s: string, z: string, x: string, y: string)
    requires '{' !in z && '{' !in x && '{' !in y
    ensures Fill(s, z, x, y) == s <==> !HasPlaceholder(s)
  {
    hide Replace, Occurs, Braces;
    var second := Replace(s, "{z}", z);
    var third := Replace(second, "{x}", x);
    ReplaceTakesBraces(s, 'z', z);
    ReplaceTakesBraces(second, 'x', x);
    ReplaceTakesBraces(third, 'y', y);
    assert ['{', 'z', '}'] == "{z}" && ['{', 'x', '}'] == "{x}" && ['{', 'y', '}'] == "{y}";
  }

  /** The text before the placeholders holds one exactly if the configured base or the id does. */
  lemma FrontPlaceholders(base: string, id: string)
    ensures HasPlaceholder(base + "/tiles/" + id) <==> HasPlaceholder(base) || HasPlaceholder(id)
  {
    hide Occurs;
    assert base + "/tiles/" + id == base + "/" + ("tiles" + "/" + id);
    OnlySplits("{z}", base, id);
    OnlySplits("{x}", base, id);
    OnlySplits("{y}", base, id);
  }

  lemma OnlySplits(pattern: string, base: string, id: string)
    requires '/' !in pattern && '{' in pattern
    ensures Occurs(pattern, base + "/" + ("tiles" + "/" + id)) <==> Occurs(pattern, base) || Occurs(pattern, id)
  {
    OccursSplits(pattern, base, "tiles" + "/" + id);
    OccursSplits(pattern, "tiles", id);
    var i :| 0 <= i < |pattern| && pattern[i] == '{';
    forall k: nat ensures !OccursAt(pattern, "tiles", k) {
      NeedsCharacter(pattern, "tiles", k, i);
    }
  }

  lemma NeedsCharacter(pattern: string, s: string, k: nat, i: nat)
    requires i < |pattern|
    ensures OccursAt(pattern, s, k) ==> pattern[i] in s
  {
    if OccursAt(pattern, s, k) {
      assert s[k..k + |pattern|][i] == s[k + i];
    }
  }

  lemma {:induction false} TrimKeepsPlaceholders(s: string)
    ensures HasPlaceholder(TrimEndSlashes(s)) <==> HasPlaceholder(s)
  {
    if s != "" && s[|s| - 1] == '/' {
      var front := s[..|s| - 1];
      TrimKeepsPlaceholders(front);
      assert s == front + "/" + "";
      OccursSplits("{z}", front, "");
      OccursSplits("{x}", front, "");
      OccursSplits("{y}", front, "");
      NothingOccurs();
    }
  }

  lemma NothingOccurs()
    ensures !Occurs("{z}", "") && !Occurs("{x}", "") && !Occurs("{y}", "")
  {
  }

  const PLACEHOLDERS := "{z}/{x}/{y}.png"

  lemma FillPlaceholders(z: string, x: string, y: string)
    requires '{' !in z && '{' !in x
    ensures Fill(PLACEHOLDERS, z, x, y) == z + "/" + x + "/" + y + ".png"
  {
    FillFirst(z, x, y);
    FillSecond(z, x, y);
    FillThird(z, x, y);
    hide Fill;
    FillSplits("{z}", "{x}", z, x, y);
    FillSplits("{z}/{x}", "{y}.png", z, x, y);
    assert "{z}" + "/" + "{x}" == "{z}/{x}" && "{z}/{x}" + "/" + "{y}.png" == PLACEHOLDERS;
    assert z + "/" + x + "/" + (y + ".png") == z + "/" + x + "/" + y + ".png";
  }

  lemma FillFirst(z: string, x: string, y: string)
    requires '{' !in z
    ensures Fill("{z}", z, x, y) == z
  {
    hide Replace;
    ReplaceHit("{z}", "{z}", z);
    ReplaceNothing("{z}", z);
    assert "{z}"[3..] == "" && z + "" == z;
    ReplaceAbsent(z, "{x}", 0, x);
    ReplaceAbsent(z, "{y}", 0, y);
  }

  lemma FillSecond(z: string, x: string, y: string)
    requires '{' !in x
    ensures Fill("{x}", z, x, y) == x
  {
    hide Replace;
    ReplaceAbsent("{x}", "{z}", 1, z);
    ReplaceHit("{x}", "{x}", x);
    ReplaceNothing("{x}", x);
    assert "{x}"[3..] == "" && x + "" == x;
    ReplaceAbsent(x, "{y}", 0, y);
  }

  lemma FillThird(z: string, x: string, y: string)
    ensures Fill("{y}.png", z, x, y) == y + ".png"
  {
    hide Replace;
    ReplaceAbsent("{y}.png", "{z}", 1, z);
    ReplaceAbsent("{y}.png", "{x}", 1, x);
    assert "{y}.png"[..3] == "{y}" && "{y}.png"[3..] == ".png";
    ReplaceHit("{y}.png", "{y}", y);
    ReplaceAbsent(".png", "{y}", 0, y);
  }

  lemma TemplateText(cdnBaseUrl: string, id: string)
    requires ValidTileSetId(id)
    ensures BuildTileUrlTemplate(cdnBaseUrl, id).value
            == TrimEndSlashes(cdnBaseUrl) + "/tiles/" + id + "/" + PLACEHOLDERS
  {
    var front := TrimEndSlashes(cdnBaseUrl) + "/tiles/" + id;
    assert "/" + PLACEHOLDERS == "/{z}/{x}/{y}.png";
    assert front + "/" + PLACEHOLDERS == front + ("/" + PLACEHOLDERS);
  }

  lemma UploadText(base: string, id: string, c: TileCoord)
    requires TileBlobPath(id, c).Success?
    ensures base + "/" + TileBlobPath(id, c).value
            == base + "/tiles/" + id + "/" + (Decimal(c.z) + "/" + Decimal(c.x) + "/" + Decimal(c.y) + ".png")
  {
    var z, x, y := Decimal(c.z), Decimal(c.x), Decimal(c.y);
    hide Decimal, ValidTileSetId, ValidateTileCoord;
    var file := z + "/" + x + "/" + y + ".png";
    assert TileBlobPath(id, c).value == "tiles/" + id + "/" + file;
    assert base + "/" + ("tiles/" + id + "/" + file) == base + "/tiles/" + id + "/" + file;
  }

  /** The URL the gateway redirects to names the blob the publisher uploaded for that tile, exactly
    * if neither the configured base URL nor the id itself holds a placeholder. */
  lemma RedirectNamesUploadedBlob(cdnBaseUrl: string, id: string, c: TileCoord)
    requires TileBlobPath(id, c).Success?
    ensures RedirectUrl(BuildTileUrlTemplate(cdnBaseUrl, id).value, c)
            == TrimEndSlashes(cdnBaseUrl) + "/" + TileBlobPath(id, c).value
            <==> !HasPlaceholder(cdnBaseUrl) && !HasPlaceholder(id)
  {
    hide Replace, Decimal, TrimEndSlashes, ValidTileSetId, ValidateTileCoord, HasPlaceholder;
    var base, z, x, y := TrimEndSlashes(cdnBaseUrl), Decimal(c.z), Decimal(c.x), Decimal(c.y);
    var front, file := base + "/tiles/" + id, z + "/" + x + "/" + y + ".png";
    TemplateText(cdnBaseUrl, id);
    UploadText(base, id, c);
    assert RedirectUrl(BuildTileUrlTemplate(cdnBaseUrl, id).value, c) == Fill(front + "/" + PLACEHOLDERS, z, x, y);
    FillSplits(front, PLACEHOLDERS, z, x, y);
    FillPlaceholders(z, x, y);
    hide Fill;
    SameEnds(Fill(front, z, x, y), front, "/" + file);
    assert Fill(front, z, x, y) + "/" + file == Fill(front, z, x, y) + ("/" + file);
    assert front + "/" + file == front + ("/" + file);
    FillChanges(front, z, x, y);
    FrontPlaceholders(base, id);
    TrimKeepsPlaceholders(cdnBaseUrl);
  }

  lemma SameEnds(a: string, b: string, end: string)
    ensures a + end == b + end <==> a == b
  {
    if a + end == b + end {
      assert (a + end)[..|a|] == a && (b + end)[..|b|] == b;
    }
  }
}

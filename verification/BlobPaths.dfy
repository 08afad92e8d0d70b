/** Raw blob paths: the printer and the two scanners that read the tile back
  * (backend/ingest-svc/src/models.rs, backend/shared/src/processing_message.rs). */
module BlobPaths {
  import opened Wrappers

  newtype byte = b: int | 0 <= b < 256

  /** The bytes of an ASCII literal. */
  function Ascii(s: string): seq<byte>
    requires forall i | 0 <= i < |s| :: s[i] as int < 128
  {
    seq(|s|, i requires 0 <= i < |s| => s[i] as int as byte)
  }

  const LETTER_H: byte := 104
  const LETTER_V: byte := 118

  predicate IsDigit(b: byte) {
    48 <= b <= 57
  }

  function DigitValue(b: byte): nat
    requires IsDigit(b)
  {
    (b - 48) as nat
  }

  function TwoDigits(tens: byte, ones: byte): nat
    requires IsDigit(tens) && IsDigit(ones)
  {
    DigitValue(tens) * 10 + DigitValue(ones)
  }

  // --------------------------------------------------------------------------- the two scanners

  /** hDDvDD at offset i. */
  predicate TileAt(bytes: seq<byte>, i: nat) {
    && i + 6 <= |bytes|
    && bytes[i] == LETTER_H && IsDigit(bytes[i + 1]) && IsDigit(bytes[i + 2])
    && bytes[i + 3] == LETTER_V && IsDigit(bytes[i + 4]) && IsDigit(bytes[i + 5])
  }

  function TileValue(bytes: seq<byte>, i: nat): (nat, nat)
    requires TileAt(bytes, i)
  {
    (TwoDigits(bytes[i + 1], bytes[i + 2]), TwoDigits(bytes[i + 4], bytes[i + 5]))
  }

  /** The scan of the processing service: windows of six bytes, first match wins. */
  function ParseFirstTile(path: seq<byte>): Option<(nat, nat)> {
    if |path| < 6 then None
    else
      var window := path[..6];
      if && window[0] == LETTER_H && window[3] == LETTER_V
         && IsDigit(window[1]) && IsDigit(window[2]) && IsDigit(window[4]) && IsDigit(window[5])
      then Some((TwoDigits(window[1], window[2]), TwoDigits(window[4], window[5])))
      else ParseFirstTile(path[1..])
  }

  lemma {:induction false} ParseFirstTileSkips(path: seq<byte>, i: nat)
    requires i <= |path| && forall k | 0 <= k < i :: !TileAt(path, k)
    ensures ParseFirstTile(path) == ParseFirstTile(path[i..])
  {
    if i == 0 {
      assert path[0..] == path;
    } else {
      ParseFirstTileSkips(path, i - 1);
      var rest := path[i - 1..];
      assert rest[1..] == path[i..];
      if 6 <= |rest| {
        assert !TileAt(path, i - 1);
      }
    }
  }

  /** The scan of the ingest service: an index loop with an early return.  It agrees with the
    * other scan on every byte string. */
  method ParseFrom(value: seq<byte>) returns (r: Option<(nat, nat)>)
    ensures r == ParseFirstTile(value)
    ensures r.Some? ==> exists i: nat :: TileAt(value, i) && r.value == TileValue(value, i)
                                    && forall k | 0 <= k < i :: !TileAt(value, k)
    ensures r.None? ==> forall i: nat :: !TileAt(value, i)
  {
    if |value| < 6 {
      return None;
    }
    for index := 0 to |value| - 6 + 1
      invariant forall k | 0 <= k < index :: !TileAt(value, k)
    {
      if && value[index] == LETTER_H
         && IsDigit(value[index + 1])
         && IsDigit(value[index + 2])
         && value[index + 3] == LETTER_V
         && IsDigit(value[index + 4])
         && IsDigit(value[index + 5])
      {
        ParseFirstTileSkips(value, index);
        assert TileAt(value, index);
        return Some((TwoDigits(value[index + 1], value[index + 2]), TwoDigits(value[index + 4], value[index + 5])));
      }
    }
    ParseFirstTileSkips(value, |value| - 5);
    return None;
  }

  // --------------------------------------------------------------------------------- the printer

  function Digit(n: nat): byte
    requires n < 10
  {
    (n + 48) as byte
  }

  /** An unsigned byte printed with at least two digits. */
  function PadTwo(n: byte): seq<byte> {
    var k := n as nat;
    if k < 100 then [Digit(k / 10), Digit(k % 10)] else [Digit(k / 100), Digit(k / 10 % 10), Digit(k % 10)]
  }

  function RawBlobPath(product: seq<byte>, date: seq<byte>, h: byte, v: byte): seq<byte> {
    product + Ascii("/") + date + Ascii("/") + [LETTER_H] + PadTwo(h) + [LETTER_V] + PadTwo(v) + Ascii(".h5")
  }

  const VERIFIED_PRODUCTS: set<seq<byte>> := {Ascii("VNP46A2"), Ascii("VJ146A2"), Ascii("VNP46A3")}

  lemma VerifiedProducts(product: seq<byte>)
    requires product in VERIFIED_PRODUCTS
    ensures LETTER_H !in product && |product| == 7 && product[0] == 86
  {
    if product == Ascii("VNP46A2") {
      assert |product| == 7;
    } else if product == Ascii("VJ146A2") {
      assert |product| == 7;
    } else {
      assert product == Ascii("VNP46A3") && |product| == 7;
    }
  }

  /** A path scans back to the tile it was printed from exactly for two-digit tiles. */
  lemma PrintThenScan(product: seq<byte>, date: seq<byte>, h: byte, v: byte)
    requires product in VERIFIED_PRODUCTS && LETTER_H !in date
    ensures ParseFirstTile(RawBlobPath(product, date, h, v)) == Some((h as nat, v as nat)) <==> h < 100 && v < 100
  {
    VerifiedProducts(product);
    var path := RawBlobPath(product, date, h, v);
    var prefix := product + Ascii("/") + date + Ascii("/");
    var tail := [LETTER_H] + PadTwo(h) + [LETTER_V] + PadTwo(v) + Ascii(".h5");
    assert path == prefix + tail;
    forall k | 0 <= k < |prefix| ensures !TileAt(path, k) {
      assert path[k] in prefix;
    }
    ParseFirstTileSkips(path, |prefix|);
    assert path[|prefix|..] == tail;
    TailScan(h, v, tail);
  }

  lemma TailScan(h: byte, v: byte, tail: seq<byte>)
    requires tail == [LETTER_H] + PadTwo(h) + [LETTER_V] + PadTwo(v) + Ascii(".h5")
    ensures ParseFirstTile(tail) == Some((h as nat, v as nat)) <==> h < 100 && v < 100
  {
    hide ParseFirstTile;
    Suffix();
    if h < 100 {
      TwoDigitTail(h, v, tail);
      ScanAtOnce(tail);
    } else {
      ThreeDigitTail(h, v, tail);
      ParseFirstTileSkips(tail, |tail|);
      NothingToScan(tail[|tail|..]);
    }
  }

  lemma Suffix()
    ensures Ascii(".h5") == [46, LETTER_H, 53]
  {
    assert ".h5"[0] as int == 46 && ".h5"[1] as int == 104 && ".h5"[2] as int == 53;
  }

  lemma ScanAtOnce(path: seq<byte>)
    requires TileAt(path, 0)
    ensures ParseFirstTile(path) == Some(TileValue(path, 0))
  {
    var window := path[..6];
    assert forall i | 0 <= i < 6 :: window[i] == path[i];
  }

  lemma NothingToScan(path: seq<byte>)
    requires path == []
    ensures ParseFirstTile(path) == None
  {
  }

  lemma TwoDigitTail(h: byte, v: byte, tail: seq<byte>)
    requires h < 100 && tail == [LETTER_H] + PadTwo(h) + [LETTER_V] + PadTwo(v) + [46, LETTER_H, 53]
    ensures TileAt(tail, 0) && TileValue(tail, 0).0 == h as nat
    ensures TileValue(tail, 0).1 == v as nat <==> v < 100
  {
    hide ParseFirstTile;
    assert tail[1] == PadTwo(h)[0] && tail[2] == PadTwo(h)[1];
    assert tail[3] == LETTER_V && tail[4] == PadTwo(v)[0] && tail[5] == PadTwo(v)[1];
  }

  lemma ThreeDigitTail(h: byte, v: byte, tail: seq<byte>)
    requires h >= 100 && tail == [LETTER_H] + PadTwo(h) + [LETTER_V] + PadTwo(v) + [46, LETTER_H, 53]
    ensures forall i | 0 <= i < |tail| :: !TileAt(tail, i)
  {
    var digits := PadTwo(v);
    assert |PadTwo(h)| == 3 && tail[3] == PadTwo(h)[2];
    forall i | 0 <= i < |tail| ensures !TileAt(tail, i) {
      if i == 0 {
        assert IsDigit(tail[3]);
      } else if i + 6 <= |tail| {
        assert i < 5 + |digits|;
        assert tail[i] == if i < 4 then PadTwo(h)[i - 1] else if i == 4 then LETTER_V else digits[i - 5];
      }
    }
  }

  // --------------------------------------------------------------------- the processing message

  datatype ProcessingMessage = ProcessingMessage(
    ingestId: nat, blobPath: seq<byte>, product: seq<byte>, granuleDate: int, tileH: int, tileV: int)

  datatype MessageError =
    | InvalidBlobPath
    | UnsupportedProduct
    | MissingTileInBlobPath
    | TileMismatch(blobH: int, blobV: int, messageH: int, messageV: int)

  predicate StartsWith(s: seq<byte>, prefix: seq<byte>) {
    |prefix| <= |s| && s[..|prefix|] == prefix
  }

  predicate ValidBlobPath(path: seq<byte>) {
    && path != []
    && !StartsWith(path, Ascii("/"))
    && !StartsWith(path, Ascii("http://"))
    && !StartsWith(path, Ascii("https://"))
    && !StartsWith(path, Ascii("raw-viirs/"))
  }

  function NewMessage(ingestId: nat, blobPath: seq<byte>, product: seq<byte>, granuleDate: int, tileH: int, tileV: int)
    : Result<ProcessingMessage, MessageError>
  {
    if !ValidBlobPath(blobPath) then Failure(InvalidBlobPath)
    else if product !in VERIFIED_PRODUCTS then Failure(UnsupportedProduct)
    else
      match ParseFirstTile(blobPath)
      case None => Failure(MissingTileInBlobPath)
      case Some((h, v)) =>
        if h != tileH || v != tileV then Failure(TileMismatch(h, v, tileH, tileV))
        else Success(ProcessingMessage(ingestId, blobPath, product, granuleDate, tileH, tileV))
  }

  /** The message of a discovered granule can be built exactly when its tile has two digits. */
  lemma MessageOfGranule(ingestId: nat, product: seq<byte>, date: seq<byte>, granuleDate: int, h: byte, v: byte)
    requires product in VERIFIED_PRODUCTS && LETTER_H !in date
    ensures NewMessage(ingestId, RawBlobPath(product, date, h, v), product, granuleDate, h as int, v as int).Success?
            <==> h < 100 && v < 100
  {
    var path := RawBlobPath(product, date, h, v);
    VerifiedProducts(product);
    ValidFromV(path);
    hide RawBlobPath, ValidBlobPath, ParseFirstTile;
    PrintThenScan(product, date, h, v);
  }

  lemma ValidFromV(path: seq<byte>)
    requires path != [] && path[0] == 86
    ensures ValidBlobPath(path)
  {
    assert forall prefix: seq<byte> :: StartsWith(path, prefix) && prefix != [] ==> prefix[0] == 86;
  }
}

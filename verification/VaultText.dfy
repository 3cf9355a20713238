/**
 Splitting a serialized credential into vault items.

 Windows Credential Manager refuses secrets above 2560 bytes of UTF-16, so the chunked layout cuts the
 text into pieces of 500 characters and stores each piece under its own key.
 */
module VaultText {

  const PIECE_CHARS: nat := 500
  const MAX_PIECE_BYTES: nat := 2000
  const MAX_PAYLOAD_BYTES: nat := 65536
  const MAX_PIECES: nat := 132
  const MAX_WINDOWS_SECRET_BYTES: nat := 2560

  /** Bytes a character takes in UTF-8. */
  function Utf8Width(c: char): (n: nat)
    ensures 1 <= n <= 4
  {
    if c as int < 0x80 then 1 else if c as int < 0x800 then 2 else if c as int < 0x1_0000 then 3 else 4
  }

  /** Byte length of a string, which is what Rust's `len` measures. */
  function Utf8Len(s: string): nat {
    if s == "" then 0 else Utf8Width(s[0]) + Utf8Len(s[1..])
  }

  /** Bytes of the UTF-16 form, which is what the Windows vault measures. */
  function Utf16Bytes(s: string): nat {
    if s == "" then 0 else (if s[0] as int < 0x1_0000 then 2 else 4) + Utf16Bytes(s[1..])
  }

  /** The text cut into pieces of 500 characters, the last one possibly shorter. */
  function Pieces(s: string): seq<string> {
    if s == "" then []
    else if |s| <= PIECE_CHARS then [s]
    else [s[..PIECE_CHARS]] + Pieces(s[PIECE_CHARS..])
  }

  function Join(pieces: seq<string>): string {
    if pieces == [] then "" else pieces[0] + Join(pieces[1..])
  }

  lemma {:induction false} Utf8LenBounds(s: string)
    ensures |s| <= Utf8Len(s) <= 4 * |s|
  {
    if s != "" {
      Utf8LenBounds(s[1..]);
    }
  }

  lemma {:induction false} Utf16BytesBound(s: string)
    ensures Utf16Bytes(s) <= 4 * |s|
  {
    if s != "" {
      Utf16BytesBound(s[1..]);
    }
  }

  lemma {:induction false} Utf8LenConcat(a: string, b: string)
    ensures Utf8Len(a + b) == Utf8Len(a) + Utf8Len(b)
  {
    if a == "" {
      assert a + b == b;
    } else {
      assert (a + b)[1..] == a[1..] + b;
      Utf8LenConcat(a[1..], b);
    }
  }

  /** Every prefix of the pieces fits in the bytes of the whole text. */
  lemma {:induction false} JoinPrefixBytes(pieces: seq<string>, n: nat)
    requires n <= |pieces|
    ensures Utf8Len(Join(pieces[..n])) <= Utf8Len(Join(pieces))
  {
    if n == 0 {
    } else {
      JoinPrefixBytes(pieces[1..], n - 1);
      assert pieces[..n][1..] == pieces[1..][..n - 1];
      Utf8LenConcat(pieces[0], Join(pieces[1..]));
      Utf8LenConcat(pieces[0], Join(pieces[1..][..n - 1]));
    }
  }

  lemma {:induction false} JoinAppend(pieces: seq<string>, last: string)
    ensures Join(pieces + [last]) == Join(pieces) + last
  {
    if pieces == [] {
      assert pieces + [last] == [last];
      assert Join([last]) == last + Join([]);
    } else {
      assert (pieces + [last])[1..] == pieces[1..] + [last];
      JoinAppend(pieces[1..], last);
    }
  }

  /** Nothing is lost or reordered by the split. */
  lemma {:induction false} JoinOfPieces(s: string)
    ensures Join(Pieces(s)) == s
  {
    if s == "" {
    } else if |s| <= PIECE_CHARS {
      assert Join([s]) == s + Join([]);
    } else {
      JoinOfPieces(s[PIECE_CHARS..]);
      assert s == s[..PIECE_CHARS] + s[PIECE_CHARS..];
    }
  }

  lemma {:induction false} PieceCount(s: string)
    ensures |Pieces(s)| == (|s| + 499) / 500
    ensures forall i | 0 <= i < |Pieces(s)| :: 1 <= |Pieces(s)[i]| <= 500
  {
    if |s| > PIECE_CHARS {
      PieceCount(s[PIECE_CHARS..]);
    }
  }

  /**
   Whatever the size check of a save admits, the manifest check and the limits of a load admit too, and
   every piece fits a Windows secret.
   */
  lemma PiecesFitTheVault(s: string)
    requires s != "" && Utf8Len(s) <= 65536
    ensures 1 <= |Pieces(s)| <= 132 == MAX_PIECES
    ensures forall i | 0 <= i < |Pieces(s)| ::
      && 1 <= |Pieces(s)[i]| <= 500
      && Utf8Len(Pieces(s)[i]) <= 2000 == MAX_PIECE_BYTES
      && Utf16Bytes(Pieces(s)[i]) <= 2560
    ensures Join(Pieces(s)) == s
  {
    PieceCount(s);
    Utf8LenBounds(s);
    JoinOfPieces(s);
    forall i | 0 <= i < |Pieces(s)|
      ensures Utf8Len(Pieces(s)[i]) <= MAX_PIECE_BYTES && Utf16Bytes(Pieces(s)[i]) <= MAX_WINDOWS_SECRET_BYTES
    {
      Utf8LenBounds(Pieces(s)[i]);
      Utf16BytesBound(Pieces(s)[i]);
    }
  }
}

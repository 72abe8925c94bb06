/** The chain fold of the audit export: one digest over an ordered list of row signatures.

    SHA-256 is any function to 32 bytes, so nothing here assumes it injective: where two
    different inputs meet in one digest, the lemmas hand over the two colliding strings. */
module FoldHash {
  import opened Bytes
  import opened Common

  type Sha = Bytes -> Digest

  ghost predicate Collision(sha: Sha, x: Bytes, y: Bytes) {
    x != y && sha(x) == sha(y)
  }

  /** The bytes one row contributes: its hex decoded, or its UTF-8 text when it is not hex. */
  function RowBytes(signedHash: string): Bytes {
    match FromHex(signedHash)
    case Some(bs) => bs
    case None => Utf8(signedHash)
  }

  function Decoded(signedHashes: seq<string>): (rows: seq<Bytes>)
    ensures |rows| == |signedHashes|
    ensures forall i | 0 <= i < |rows| :: rows[i] == RowBytes(signedHashes[i])
  {
    seq(|signedHashes|, i requires 0 <= i < |signedHashes| => RowBytes(signedHashes[i]))
  }

  /** acc = SHA(""), then acc = SHA(acc || row) for each row in order. */
  function Fold(sha: Sha, rows: seq<Bytes>): Digest {
    if rows == [] then sha([])
    else sha(Fold(sha, rows[..|rows| - 1]) + rows[|rows| - 1])
  }

  function ChainDigest(sha: Sha, signedHashes: seq<string>): (digest: string)
    ensures IsAscii(digest) && |digest| == 64
  {
    Hex(Fold(sha, Decoded(signedHashes)))
  }

  /** `_chain_fold_hash` */
  method ChainFoldHash(sha: Sha, signedHashes: seq<string>) returns (digest: string)
    ensures digest == ChainDigest(sha, signedHashes)
  {
    var acc := sha([]);
    for i := 0 to |signedHashes|
      invariant acc == Fold(sha, Decoded(signedHashes[..i]))
    {
      var rowBytes: Bytes;
      match FromHex(signedHashes[i]) {
        case Some(bs) => rowBytes := bs;
        case None => rowBytes := Utf8(signedHashes[i]);
      }
      assert Decoded(signedHashes[..i + 1])[..i] == Decoded(signedHashes[..i]);
      acc := sha(acc + rowBytes);
    }
    assert signedHashes[..|signedHashes|] == signedHashes;
    digest := Hex(acc);
  }

  /** As published: the digest of no rows is that of the empty input, and one more row makes it the
      digest of the digest so far followed by the row's bytes, which are its hex decoded, or else its
      UTF-8. So the fold can be carried on from the digest text alone. */
  lemma FoldCarriesOn(sha: Sha, signedHashes: seq<string>, h: string)
    ensures ChainDigest(sha, []) == Hex(sha([]))
    ensures FromHex(ChainDigest(sha, signedHashes)).Some?
    ensures var acc := FromHex(ChainDigest(sha, signedHashes)).value;
            && (FromHex(h).Some? ==> ChainDigest(sha, signedHashes + [h]) == Hex(sha(acc + FromHex(h).value)))
            && (FromHex(h).None? ==> ChainDigest(sha, signedHashes + [h]) == Hex(sha(acc + Utf8(h))))
  {
    var rows := Decoded(signedHashes + [h]);
    assert Decoded([]) == [];
    assert rows[..|rows| - 1] == Decoded(signedHashes);
    FromHexOfHex(Fold(sha, Decoded(signedHashes)));
    hide FromHex, Hex, Utf8;
  }

  /** Two different row lists with one digest give a SHA-256 collision: at some row, or between a
      row step and the empty-input seed when one list runs out first. */
  lemma {:induction false} FoldBinds(sha: Sha, a: seq<Bytes>, b: seq<Bytes>) returns (x: Bytes, y: Bytes)
    requires a != b && Fold(sha, a) == Fold(sha, b)
    ensures Collision(sha, x, y)
    decreases |a|
  {
    x, y := StepInput(sha, a), StepInput(sha, b);
    if x == y {
      assert |a| > 0 && |b| > 0;
      var a', b' := a[..|a| - 1], b[..|b| - 1];
      assert x[..32] == Fold(sha, a') && y[..32] == Fold(sha, b');
      assert x[32..] == a[|a| - 1] && y[32..] == b[|b| - 1];
      assert a == a' + [a[|a| - 1]] && b == b' + [b[|b| - 1]];
      x, y := FoldBinds(sha, a', b');
    }
  }

  // What the last SHA call of the fold was given.
  function StepInput(sha: Sha, rows: seq<Bytes>): (r: Bytes)
    ensures sha(r) == Fold(sha, rows)
    ensures |r| >= 32 <==> rows != []
  {
    if rows == [] then [] else Fold(sha, rows[..|rows| - 1]) + rows[|rows| - 1]
  }

  /** The digest identifies the decoded rows, in order and number, up to a collision. */
  lemma DigestBindsRows(sha: Sha, p: seq<string>, q: seq<string>) returns (x: Bytes, y: Bytes)
    requires ChainDigest(sha, p) == ChainDigest(sha, q)
    ensures Decoded(p) == Decoded(q) || Collision(sha, x, y)
  {
    HexInjective(Fold(sha, Decoded(p)), Fold(sha, Decoded(q)));
    if Decoded(p) != Decoded(q) {
      x, y := FoldBinds(sha, Decoded(p), Decoded(q));
    } else {
      x, y := [], [];
    }
  }

  // What a row's signed_hash is in production: 64 lowercase hex characters.
  predicate IsHexHash(s: string) {
    |s| == 64 && IsLowerHex(s)
  }

  /** On well-formed hashes the digest identifies the list of strings itself. */
  lemma DigestBindsHexRows(sha: Sha, p: seq<string>, q: seq<string>) returns (x: Bytes, y: Bytes)
    requires forall s | s in p + q :: IsHexHash(s)
    requires ChainDigest(sha, p) == ChainDigest(sha, q)
    ensures p == q || Collision(sha, x, y)
  {
    x, y := DigestBindsRows(sha, p, q);
    if Decoded(p) == Decoded(q) {
      forall i | 0 <= i < |p|
        ensures p[i] == q[i]
      {
        assert p[i] in p + q && q[i] in p + q;
        HexOfFromHex(p[i]);
        HexOfFromHex(q[i]);
        assert Decoded(p)[i] == Decoded(q)[i];
      }
    }
  }

  /** Outside that form the strings are not identified: case, white space and the UTF-8 fallback
      all fold alike under every hash function. */
  lemma DigestIgnoresSpelling(sha: Sha)
    ensures ChainDigest(sha, ["ab"]) == ChainDigest(sha, ["AB"])
    ensures ChainDigest(sha, ["ab"]) == ChainDigest(sha, [" ab "])
    ensures ChainDigest(sha, ["zz"]) == ChainDigest(sha, ["7a7a"])
  {
    assert FromHex("") == Some([]);
    assert [171] + [] == [171] && [122] + [] == [122];
    assert FromHex("ab") == Some([171]) by { FromHexPair('a', 'b', ""); assert "ab" == ['a', 'b'] + ""; }
    assert FromHex("AB") == Some([171]) by { FromHexPair('A', 'B', ""); assert "AB" == ['A', 'B'] + ""; }
    assert FromHex(" ab ") == Some([171]) by {
      FromHexPair('a', 'b', " ");
      assert " ab "[1..] == ['a', 'b'] + " ";
      assert " "[1..] == "";
    }
    assert FromHex("7a7a") == Some([122, 122]) by {
      FromHexPair('7', 'a', "");
      assert FromHex("7a") == Some([122]);
      FromHexPair('7', 'a', "7a");
      assert [122] + [122] == [122, 122];
      assert "7a7a" == ['7', 'a'] + "7a" && "7a" == ['7', 'a'] + "";
    }
    assert Utf8("zz") == [122, 122] by { assert "zz"[1..] == "z" && "z"[1..] == ""; }
    assert Decoded(["ab"]) == Decoded(["AB"]) == Decoded([" ab "]);
    assert Decoded(["zz"]) == Decoded(["7a7a"]);
  }
}

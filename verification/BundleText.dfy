/** The text of a bundle's header, spelled out: the signature, a line a ref in order, the
blank line, and what else a line may say. */
module BundleText {
  import opened Bytes
  import opened Pack
  import opened BundleHeader

  // ---- Hex ----------------------------------------------------------------

  lemma DigitIs(n: nat)
    requires n < 16
    ensures HexDigit(n) == ToBytes("0123456789abcdef")[n]
  {
  }

  /** Two digits a byte, the high half first. */
  lemma {:induction false} HexAt(s: seq<Byte>, k: nat)
    requires k < |s|
    ensures var digits := ToBytes("0123456789abcdef");
            Hex(s)[2 * k] == digits[s[k] / 16] && Hex(s)[2 * k + 1] == digits[s[k] % 16]
  {
    if k > 0 {
      HexAt(s[1..], k - 1);
    } else {
      DigitIs(s[0] / 16);
      DigitIs(s[0] % 16);
    }
  }

  // ---- What is written ----------------------------------------------------

  lemma {:induction false} RefLinesJoin(a: seq<BundleRef>, b: seq<BundleRef>)
    ensures RefLines(a + b) == RefLines(a) + RefLines(b)
  {
    if b == [] {
      assert a + b == a;
    } else {
      assert (a + b)[..|a + b| - 1] == a + b[..|b| - 1];
      RefLinesJoin(a, b[..|b| - 1]);
    }
  }

  lemma OneRefLine(ref: BundleRef)
    ensures RefLines([ref]) == Hex(ref.id) + ToBytes(" ") + ref.name + ToBytes("\n")
  {
    assert [ref][..0] == [];
    assert RefLines([]) == [];
  }

  /** There is a line for each ref, in the order given. */
  lemma LineForEach(before: seq<BundleRef>, ref: BundleRef, after: seq<BundleRef>)
    ensures RefLines(before + [ref] + after) ==
            RefLines(before) + (Hex(ref.id) + ToBytes(" ") + ref.name + ToBytes("\n")) + RefLines(after)
    ensures RefLines([]) == []
  {
    RefLinesJoin(before + [ref], after);
    RefLinesJoin(before, [ref]);
    OneRefLine(ref);
  }

  /** A header is its signature, those lines, and a blank one. */
  lemma HeaderSpelled(refs: seq<BundleRef>)
    ensures HeaderBytes(refs) == ToBytes("# v2 git bundle\n") + RefLines(refs) + ToBytes("\n")
  {
    assert ToBytes("# v2 git bundle\n") == SIGNATURE + [NEWLINE];
    assert ToBytes("\n") == [NEWLINE];
  }

  // ---- What is read -------------------------------------------------------

  /** What a line may say: a minus before an id makes it a prerequisite, with or without a
      comment; an id and a name are a ref, and no less is. */
  lemma LinesMean(c: Codec, version: nat, id: ObjectId, text: seq<Byte>)
    ensures ReadLine(c, version, ToBytes("-") + Hex(id)) == Some(Prerequisite(id))
    ensures ReadLine(c, version, ToBytes("-") + (Hex(id) + ToBytes(" ") + text)) == Some(Prerequisite(id))
    ensures ReadLine(c, version, Hex(id)) == None
    ensures ReadLine(c, version, Hex(id) + ToBytes(" ") + text) ==
            if text != [] && c.utf8(text) then Some(Ref(BundleRef(text, id))) else None
  {
    IdRead(id, text);
    Minus(c, version, Hex(id));
    Minus(c, version, Hex(id) + ToBytes(" ") + text);
    HexPlain(id, MINUS);
    NotAt(id);
    assert (Hex(id) + ToBytes(" ") + text)[0] == Hex(id)[0] && Hex(id)[0] in Hex(id);
  }

  lemma Minus(c: Codec, version: nat, rest: seq<Byte>)
    ensures ReadLine(c, version, ToBytes("-") + rest) ==
            if ReadId(rest).None? then None else Some(Prerequisite(ReadId(rest).value.0))
  {
    assert (ToBytes("-") + rest)[1..] == rest;
  }

  /** The blank line ends the header, and a third version may say that its ids are SHA-1
      but nothing else of the kind. */
  lemma OtherLines(c: Codec, version: nat, text: seq<Byte>)
    ensures ReadLine(c, version, []) == Some(End)
    ensures ReadLine(c, 3, ToBytes("@") + text) ==
            if text == ToBytes("object-format=sha1") then Some(Capability) else None
  {
    assert (ToBytes("@") + text)[1..] == text;
  }

  lemma IdRead(id: ObjectId, text: seq<Byte>)
    ensures ReadId(Hex(id)) == Some((id, None))
    ensures ReadId(Hex(id) + ToBytes(" ") + text) == Some((id, if text == [] then None else Some(text)))
  {
    HexRead(id);
    HexPlain(id, SPACE);
    NoPosition(Hex(id), SPACE);
    PositionIs(Hex(id), SPACE, text);
    var more := Hex(id) + ToBytes(" ") + text;
    assert more == Hex(id) + [SPACE] + text;
    assert more[..40] == Hex(id) && more[41..] == text;
  }

  lemma {:induction false} NoPosition(bytes: seq<Byte>, b: Byte)
    requires b !in bytes
    ensures Position(bytes, b) == None
  {
    if bytes != [] { NoPosition(bytes[1..], b); }
  }

  lemma NotAt(id: ObjectId)
    ensures Hex(id)[0] != AT
  {
    HexAt(id, 0);
  }

  lemma {:induction false} PositionHas(bytes: seq<Byte>, b: Byte)
    requires Position(bytes, b).Some?
    ensures bytes[Position(bytes, b).value] == b
  {
    if bytes[0] != b { PositionHas(bytes[1..], b); }
  }

  /** A bundle that is read begins with one of two signatures. */
  lemma SignatureRead(c: Codec, bundle: seq<Byte>)
    requires BundleHeaderOf(c, bundle).Some?
    ensures var version := BundleHeaderOf(c, bundle).value.version;
            || (version == 2 && ToBytes("# v2 git bundle\n") <= bundle)
            || (version == 3 && ToBytes("# v3 git bundle\n") <= bundle)
  {
    PositionHas(bundle, NEWLINE);
    var end := Position(bundle, NEWLINE).value;
    var line := bundle[..end];
    if IsText(line, "# v2 git bundle") {
      assert ToBytes("# v2 git bundle\n") == bundle[..end + 1];
    } else {
      assert ToBytes("# v3 git bundle\n") == bundle[..end + 1];
    }
  }
}

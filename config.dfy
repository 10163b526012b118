/** `Settings.parse_cors_origins` in `config.py`: how the `CORS_ORIGINS`
    setting is read from its raw value.  `json.loads` is a parameter
    (`loads`): `None` stands for a `JSONDecodeError`. */
module Config {
  import opened Wrappers
  import opened Text

  /** What `json.loads` gives back, as far as the validator looks at it:
      a list (of origins), or anything else. */
  datatype Json = JsonArray(elements: seq<string>) | JsonOther

  /** The raw setting: a string from the environment, or a value that is
      already a list. */
  datatype CorsInput = CorsText(text: string) | CorsList(origins: seq<string>)

  // ---------------------------------------------------------------------
  // The comma-separated form

  /** `[p.strip() for p in pieces if p.strip()]`. */
  function StrippedNonEmpty(pieces: seq<string>): (r: seq<string>)
    ensures |r| <= |pieces|
    ensures forall k :: 0 <= k < |r| ==> r[k] != [] && Strip(r[k]) == r[k]
  {
    if pieces == [] then []
    else
      StripIdempotent(pieces[0], IsSpace);
      var rest := StrippedNonEmpty(pieces[1..]);
      if Strip(pieces[0]) != [] then [Strip(pieces[0])] + rest else rest
  }

  /** Every origin kept is the stripped form of one of the pieces. */
  lemma {:induction false} KeptComesFromPiece(pieces: seq<string>, o: string)
    requires o in StrippedNonEmpty(pieces)
    ensures exists j :: 0 <= j < |pieces| && o == Strip(pieces[j])
  {
    if o != Strip(pieces[0]) {
      KeptComesFromPiece(pieces[1..], o);
      var j :| 0 <= j < |pieces[1..]| && o == Strip(pieces[1..][j]);
      assert o == Strip(pieces[j + 1]);
    }
  }

  /** Every piece whose stripped form is not empty is kept. */
  lemma {:induction false} NonEmptyPieceKept(pieces: seq<string>, j: nat)
    requires j < |pieces| && Strip(pieces[j]) != []
    ensures Strip(pieces[j]) in StrippedNonEmpty(pieces)
  {
    if j > 0 {
      NonEmptyPieceKept(pieces[1..], j - 1);
    }
  }

  /** The comma form of the setting: split on ',', strip each piece, drop
      the empty ones. */
  function CommaOrigins(text: string): (origins: seq<string>)
    ensures forall k :: 0 <= k < |origins| ==> origins[k] != [] && Strip(origins[k]) == origins[k]
    ensures forall k :: 0 <= k < |origins| ==> ',' !in origins[k]
  {
    var pieces := Split(text, ',');
    var r := StrippedNonEmpty(pieces);
    forall k | 0 <= k < |r| ensures ',' !in r[k] {
      KeptComesFromPiece(pieces, r[k]);
      var j :| 0 <= j < |pieces| && r[k] == Strip(pieces[j]);
      StripAddsNothing(pieces[j], ',');
    }
    r
  }

  /** Stripping a piece cannot bring in a character it did not have. */
  lemma StripAddsNothing(p: string, c: char)
    requires c !in p
    ensures c !in Strip(p)
  {
    StripShape(p, IsSpace);
    var a := StripStart(p, IsSpace);
    var r := Strip(p);
    forall i | 0 <= i < |r| ensures r[i] != c {
      assert r[i] == a[i] == p[|p| - |a| + i];
    }
  }

  // ---------------------------------------------------------------------
  // The validator

  /** `parse_cors_origins`: a value that is not a string is passed on as it
      is; a string that `json.loads` reads as a list gives that list; any
      other string (not JSON, or JSON that is not a list) gives its comma
      form. */
  function ParseCorsOrigins(v: CorsInput, loads: string -> Option<Json>): (origins: seq<string>)
    ensures v.CorsList? ==> origins == v.origins
    ensures v.CorsText? && loads(v.text).Some? && loads(v.text).value.JsonArray? ==>
      origins == loads(v.text).value.elements
    ensures v.CorsText? && !(loads(v.text).Some? && loads(v.text).value.JsonArray?) ==>
      origins == CommaOrigins(v.text)
  {
    match v
    case CorsList(origins) => origins
    case CorsText(text) =>
      match loads(text)
      case Some(JsonArray(elements)) => elements
      case _ => CommaOrigins(text)
  }

  /** A string with no list in it: every origin that is written between
      commas (ignoring surrounding white space) is kept, and each origin
      kept is such a piece. */
  lemma CommaFormIsPieces(text: string, loads: string -> Option<Json>, o: string)
    requires !(loads(text).Some? && loads(text).value.JsonArray?)
    ensures o in ParseCorsOrigins(CorsText(text), loads) <==>
      o != [] && exists j :: 0 <= j < |Split(text, ',')| && o == Strip(Split(text, ',')[j])
  {
    var pieces := Split(text, ',');
    if o in StrippedNonEmpty(pieces) {
      KeptComesFromPiece(pieces, o);
    }
    if o != [] && exists j :: 0 <= j < |pieces| && o == Strip(pieces[j]) {
      var j :| 0 <= j < |pieces| && o == Strip(pieces[j]);
      NonEmptyPieceKept(pieces, j);
    }
  }

  /** Origins written out with commas between them read back as the same
      list, provided each is non-empty, has no surrounding white space and
      no comma, and the text is not itself a JSON list. */
  lemma CommaListRoundTrip(origins: seq<string>, loads: string -> Option<Json>)
    requires forall k :: 0 <= k < |origins| ==> origins[k] != [] && Strip(origins[k]) == origins[k]
    requires forall k :: 0 <= k < |origins| ==> ',' !in origins[k]
    requires !(loads(Join(origins, ',')).Some? && loads(Join(origins, ',')).value.JsonArray?)
    ensures ParseCorsOrigins(CorsText(Join(origins, ',')), loads) == origins
  {
    if origins == [] {
      assert Split([], ',') == [[]];
      assert Strip([]) == [];
    } else {
      SplitJoin(origins, ',');
      KeptAsIs(origins);
    }
  }

  lemma {:induction false} KeptAsIs(origins: seq<string>)
    requires forall k :: 0 <= k < |origins| ==> origins[k] != [] && Strip(origins[k]) == origins[k]
    ensures StrippedNonEmpty(origins) == origins
  {
    if origins != [] {
      KeptAsIs(origins[1..]);
      assert [origins[0]] + origins[1..] == origins;
    }
  }

  lemma TwoPieces()
    ensures Split("a.gh, b.gh", ',') == ["a.gh", " b.gh"]
  {
    assert "a.gh, b.gh" == "a.gh" + [','] + " b.gh";
    SplitAfterPiece("a.gh", " b.gh", ',');
    SplitPiece(" b.gh", ',');
  }

  lemma LeadingSpaceStripped()
    ensures Strip(" b.gh") == "b.gh"
  {
    var b := "b.gh";
    assert " b.gh" == [' '] + b;
    assert ([' '] + b)[1..] == b;
    assert IsSpace(' ') && !IsSpace(b[0]) && !IsSpace(b[|b| - 1]);
    assert StripStart(b, IsSpace) == b;
    assert StripStart([' '] + b, IsSpace) == b;
    StripNothing(b, IsSpace);
  }

  lemma TwoStripped()
    ensures StrippedNonEmpty(["a.gh", " b.gh"]) == ["a.gh", "b.gh"]
  {
    StripNothing("a.gh", IsSpace);
    LeadingSpaceStripped();
    assert ["a.gh", " b.gh"][1..] == [" b.gh"];
  }

  /** The two hosts of a deployment written as "a, b" give both origins. */
  lemma TwoOriginsExample(loads: string -> Option<Json>)
    requires loads("a.gh, b.gh") == None
    ensures ParseCorsOrigins(CorsText("a.gh, b.gh"), loads) == ["a.gh", "b.gh"]
  {
    TwoPieces();
    TwoStripped();
  }
}

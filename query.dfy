/** The `key=value&...` strings every resource builder appends to its path.
    A query is described as a list of parameters; `Encode` writes the list
    the way the builders do (no percent-encoding), and `Decode` is an
    idealized reader of such a string: split on every `&`, then split each
    piece at its first `=`, with no percent-decoding and no `+` for space. A piece without `=` is a bare word, which is what the `page%i` and
    `parent_id%i` formats of `artists` and `forum` produce. */
module Query {
  import opened Wrappers
  import opened Strings

  datatype Param = Pair(key: string, value: string) | Bare(text: string)

  function ParamText(p: Param): string
  {
    match p
    case Pair(k, v) => k + "=" + v
    case Bare(t) => t
  }

  /** The parameters' texts joined with `&`. */
  function Encode(ps: seq<Param>): string
  {
    if |ps| == 0 then ""
    else if |ps| == 1 then ParamText(ps[0])
    else ParamText(ps[0]) + "&" + Encode(ps[1..])
  }

  /** `s` cut at every `&`. */
  function Split(s: string): (pieces: seq<string>)
    ensures |pieces| >= 1
    decreases |s|
  {
    var i := IndexOf(s, '&');
    if i < 0 then [s] else [s[..i]] + Split(s[i + 1..])
  }

  function DecodeParam(piece: string): Param
  {
    var i := IndexOf(piece, '=');
    if i < 0 then Bare(piece) else Pair(piece[..i], piece[i + 1..])
  }

  function DecodePieces(pieces: seq<string>): (ps: seq<Param>)
    ensures |ps| == |pieces|
  {
    if |pieces| == 0 then [] else [DecodeParam(pieces[0])] + DecodePieces(pieces[1..])
  }

  function Decode(q: string): seq<Param>
  {
    if q == "" then [] else DecodePieces(Split(q))
  }

  /** The value of the first pair with key `k`. */
  function Lookup(ps: seq<Param>, k: string): Option<string>
  {
    if |ps| == 0 then None
    else if ps[0].Pair? && ps[0].key == k then Some(ps[0].value)
    else Lookup(ps[1..], k)
  }

  /** The first pair with key `k` is the one `Lookup` finds. */
  lemma {:induction false} LookupAt(ps: seq<Param>, k: string, i: int)
    requires 0 <= i < |ps| && ps[i].Pair? && ps[i].key == k
    requires forall j :: 0 <= j < i ==> !(ps[j].Pair? && ps[j].key == k)
    ensures Lookup(ps, k) == Some(ps[i].value)
  {
    if i > 0 {
      assert ps[1..][i - 1] == ps[i];
      assert forall j :: 0 <= j < i - 1 ==> ps[1..][j] == ps[j + 1];
      LookupAt(ps[1..], k, i - 1);
    }
  }

  /** With no pair keyed `k`, `Lookup` finds nothing. */
  lemma {:induction false} LookupAbsent(ps: seq<Param>, k: string)
    requires forall j :: 0 <= j < |ps| ==> !(ps[j].Pair? && ps[j].key == k)
    ensures Lookup(ps, k) == None
  {
    if |ps| > 0 {
      assert forall j :: 0 <= j < |ps| - 1 ==> ps[1..][j] == ps[j + 1];
      LookupAbsent(ps[1..], k);
    }
  }

  /** A parameter whose text survives a round trip: keys hold neither `&`
      nor `=`, values hold no `&`, a bare word is non-empty and holds
      neither. */
  predicate WellFormed(p: Param)
  {
    match p
    case Pair(k, v) => '&' !in k && '=' !in k && '&' !in v
    case Bare(t) => t != "" && '&' !in t && '=' !in t
  }

  predicate AllWellFormed(ps: seq<Param>)
  {
    forall i :: 0 <= i < |ps| ==> WellFormed(ps[i])
  }

  lemma DecodeParamText(p: Param)
    requires WellFormed(p)
    ensures '&' !in ParamText(p) && ParamText(p) != ""
    ensures DecodeParam(ParamText(p)) == p
  {
    match p
    case Pair(k, v) =>
      var t := ParamText(p);
      assert t[|k|] == '=' && t[..|k|] == k;
      assert t[|k| + 1..] == v;
    case Bare(t) =>
  }

  /** Splitting at the first `&` of `t&rest` gives `t` and the pieces of
      `rest`. */
  lemma SplitJoin(t: string, rest: string)
    requires '&' !in t
    ensures Split(t + "&" + rest) == [t] + Split(rest)
  {
    var s := t + "&" + rest;
    assert s[|t|] == '&' && s[..|t|] == t && s[|t| + 1..] == rest;
    assert IndexOf(s, '&') == |t|;
  }

  lemma DecodePiecesCons(piece: string, pieces: seq<string>)
    ensures DecodePieces([piece] + pieces) == [DecodeParam(piece)] + DecodePieces(pieces)
  {
    assert ([piece] + pieces)[1..] == pieces;
  }

  lemma {:induction false} DecodePiecesEncode(ps: seq<Param>)
    requires |ps| >= 1 && AllWellFormed(ps)
    ensures Encode(ps) != ""
    ensures DecodePieces(Split(Encode(ps))) == ps
  {
    var t := ParamText(ps[0]);
    assert '&' !in t && t != "" && DecodeParam(t) == ps[0] by {
      DecodeParamText(ps[0]);
    }
    if |ps| == 1 {
      assert Split(t) == [t];
    } else {
      var rest := Encode(ps[1..]);
      assert Encode(ps) == t + "&" + rest;
      assert Split(Encode(ps)) == [t] + Split(rest) by {
        SplitJoin(t, rest);
      }
      assert DecodePieces([t] + Split(rest)) == [ps[0]] + ps[1..] by {
        DecodePiecesCons(t, Split(rest));
        assert AllWellFormed(ps[1..]);
        DecodePiecesEncode(ps[1..]);
      }
      assert [ps[0]] + ps[1..] == ps;
    }
  }

  /** Appending a parameter appends `&` and its text, which is how the
      builders extend a query with `+=`. */
  lemma {:induction false} EncodeAppend(ps: seq<Param>, p: Param)
    requires |ps| >= 1
    ensures Encode(ps + [p]) == Encode(ps) + "&" + ParamText(p)
  {
    var qs := ps + [p];
    assert qs[0] == ps[0];
    if |ps| == 1 {
      assert qs[1..] == [p];
    } else {
      assert qs[1..] == ps[1..] + [p];
      EncodeAppend(ps[1..], p);
    }
  }

  // The next four lemmas are unfolding steps, not specifications: `lead` and
  // `sep` name the literal the caller writes, so that its proof compares
  // strings of the same shape.

  /** The text of a one-pair query, for a `lead` spelling `k=`. */
  lemma FirstPairText(k: string, v: string, lead: string)
    requires lead == k + "="
    ensures Encode([Pair(k, v)]) == lead + v
  {
  }

  lemma JoinText(x: string, y: string, v: string, sep: string)
    requires sep == "&" + y
    ensures x + "&" + (y + v) == x + sep + v
  {
  }

  /** Appending a pair, for a `sep` spelling `&k=`. */
  lemma AppendPairText(ps: seq<Param>, k: string, v: string, sep: string)
    requires |ps| >= 1 && sep == "&" + k + "="
    ensures Encode(ps + [Pair(k, v)]) == Encode(ps) + sep + v
  {
    EncodeAppend(ps, Pair(k, v));
    JoinText(Encode(ps), k + "=", v, sep);
  }

  /** Appending a bare word `w + v`, for a `sep` spelling `&w`. */
  lemma AppendBareText(ps: seq<Param>, w: string, v: string, sep: string)
    requires |ps| >= 1 && sep == "&" + w
    ensures Encode(ps + [Bare(w + v)]) == Encode(ps) + sep + v
  {
    EncodeAppend(ps, Bare(w + v));
    JoinText(Encode(ps), w, v, sep);
  }

  /** The piece of text after the first `=` is the value, the part before
      it the key; reading a piece and writing it again gives the piece. */
  lemma ParamTextDecode(piece: string)
    ensures ParamText(DecodeParam(piece)) == piece
    ensures piece != "" && '&' !in piece ==> WellFormed(DecodeParam(piece))
  {
    var i := IndexOf(piece, '=');
    if i >= 0 {
      assert piece[..i] + "=" + piece[i + 1..] == piece;
    }
  }

  /** Decoding undoes encoding for every list of well-formed parameters. */
  lemma DecodeEncode(ps: seq<Param>)
    requires AllWellFormed(ps)
    ensures Decode(Encode(ps)) == ps
  {
    if |ps| >= 1 {
      DecodePiecesEncode(ps);
    }
  }
}

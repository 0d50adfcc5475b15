/** Query strings of `/pair` requests: building them, and looking a parameter up
    in them the way the host does. */
module Query {
  import opened ByteStrings

  const AMP: Byte := 38
  const EQUALS: Byte := 61

  /** `str::split('&')`: at least one piece. */
  function Split(s: Bytes): (pieces: seq<Bytes>)
    ensures |pieces| >= 1
  {
    if s == [] then [[]]
    else if s[0] == AMP then [[]] + Split(s[1..])
    else
      var rest := Split(s[1..]);
      [[s[0]] + rest[0]] + rest[1..]
  }

  function Join(pieces: seq<Bytes>): Bytes
    requires |pieces| >= 1
  {
    if |pieces| == 1 then pieces[0] else pieces[0] + [AMP] + Join(pieces[1..])
  }

  /** The first piece that starts with `key=`, without that prefix. */
  function Find(pieces: seq<Bytes>, key: Bytes): Option<Bytes> {
    if pieces == [] then None
    else if key + [EQUALS] <= pieces[0] then Some(pieces[0][|key| + 1..])
    else Find(pieces[1..], key)
  }

  function Param(args: Bytes, key: Bytes): Option<Bytes> {
    Find(Split(args), key)
  }

  type Pairs = seq<(Bytes, Bytes)>

  function Pieces(params: Pairs): (pieces: seq<Bytes>)
    ensures |pieces| == |params|
  {
    if params == [] then [] else [params[0].0 + [EQUALS] + params[0].1] + Pieces(params[1..])
  }

  /** `key=value` pairs joined by `&`, as the format strings spell them out. */
  function Format(params: Pairs): Bytes
    requires params != []
  {
    Join(Pieces(params))
  }

  function Lookup(params: Pairs, key: Bytes): Option<Bytes> {
    if params == [] then None
    else if params[0].0 == key then Some(params[0].1)
    else Lookup(params[1..], key)
  }

  predicate Free(s: Bytes, c: Byte) {
    forall i | 0 <= i < |s| :: s[i] != c
  }

  predicate Clean(params: Pairs) {
    forall i | 0 <= i < |params| ::
      Free(params[i].0, AMP) && Free(params[i].0, EQUALS) && Free(params[i].1, AMP)
  }

  lemma {:induction false} SplitPiece(a: Bytes, rest: Bytes)
    requires Free(a, AMP)
    ensures Split(a + [AMP] + rest) == [a] + Split(rest)
    ensures Split(a) == [a]
  {
    var s := a + [AMP] + rest;
    if a == [] {
      assert s[1..] == rest;
    } else {
      SplitPiece(a[1..], rest);
      assert s[1..] == a[1..] + [AMP] + rest;
      assert [a[0]] + a[1..] == a;
    }
  }

  lemma {:induction false} SplitJoin(pieces: seq<Bytes>)
    requires |pieces| >= 1 && forall i | 0 <= i < |pieces| :: Free(pieces[i], AMP)
    ensures Split(Join(pieces)) == pieces
  {
    if |pieces| == 1 {
      SplitPiece(pieces[0], []);
    } else {
      SplitJoin(pieces[1..]);
      SplitPiece(pieces[0], Join(pieces[1..]));
    }
  }

  /** Of two names without `=`, one prefixes the other's pair only if equal. */
  lemma PrefixDecides(key: Bytes, name: Bytes, value: Bytes)
    requires Free(key, EQUALS) && Free(name, EQUALS)
    ensures key + [EQUALS] <= name + [EQUALS] + value <==> key == name
  {
    var piece := name + [EQUALS] + value;
    assert piece[|name|] == EQUALS;
    if key + [EQUALS] <= piece {
      assert piece[|key|] == (key + [EQUALS])[|key|] == EQUALS;
      assert forall i | 0 <= i < |name| :: piece[i] == name[i];
      assert forall i | 0 <= i < |key| :: piece[i] == (key + [EQUALS])[i] == key[i];
      assert |key| == |name|;
      assert key == piece[..|key|] == name;
    }
  }

  lemma {:induction false} FindPieces(params: Pairs, key: Bytes)
    requires Clean(params) && Free(key, EQUALS)
    ensures Find(Pieces(params), key) == Lookup(params, key)
    ensures forall i | 0 <= i < |params| :: Free(Pieces(params)[i], AMP)
  {
    if params == [] {
    } else {
      var (name, value) := params[0];
      FindPieces(params[1..], key);
      PrefixDecides(key, name, value);
      assert (name + [EQUALS] + value)[|name| + 1..] == value;
      assert Free(name + [EQUALS] + value, AMP);
    }
  }

  /** Looking a parameter up in a formatted query gives its value. */
  lemma ParamOfFormat(params: Pairs, key: Bytes)
    requires params != [] && Clean(params) && Free(key, EQUALS)
    ensures Param(Format(params), key) == Lookup(params, key)
  {
    FindPieces(params, key);
    SplitJoin(Pieces(params));
  }
}

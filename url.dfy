/**
  The part of Go's `net/url` the login and token requests use: `url.Values`
  with `Set` and `Encode`, and `QueryEscape`, the
  application/x-www-form-urlencoded escaping of one key or value. A form
  decoder is given beside them as the reference inverse of `Encode`.
*/
module Url {
  import opened Wrappers
  import opened Text

  /**
    `url.Values`. Go keeps a map and sorts its keys when encoding; here the
    entries are kept in ascending key order from the start, which gives the
    same encoding.
  */
  type Values = seq<(string, seq<string>)>

  predicate Sorted(v: Values)
  {
    forall i, j :: 0 <= i < j < |v| ==> Less(v[i].0, v[j].0)
  }

  /** Every key of `v` is above `lo`. */
  predicate Above(v: Values, lo: string)
  {
    forall i :: 0 <= i < |v| ==> Less(lo, v[i].0)
  }

  /** The values stored under `k`, if any. */
  function Lookup(v: Values, k: string): Option<seq<string>>
  {
    if |v| == 0 then None else if v[0].0 == k then Some(v[0].1) else Lookup(v[1..], k)
  }

  /** `v.Set(k, x)`: `k` now holds exactly `[x]`, whatever it held before, and no other key changes. */
  function Set(v: Values, k: string, x: string): (r: Values)
    ensures Lookup(r, k) == Some([x])
    ensures forall k' :: k' != k ==> Lookup(r, k') == Lookup(v, k')
  {
    if |v| == 0 || Less(k, v[0].0) then [(k, [x])] + v
    else if v[0].0 == k then [(k, [x])] + v[1..]
    else [v[0]] + Set(v[1..], k, x)
  }

  lemma {:induction false} LookupAbsent(v: Values, k: string)
    requires Sorted(v) && (|v| == 0 || Less(k, v[0].0))
    ensures Lookup(v, k) == None
    decreases |v|
  {
    if |v| > 0 {
      LessIrreflexive(k);
      if |v| > 1 {
        LessTransitive(k, v[0].0, v[1].0);
      }
      LookupAbsent(v[1..], k);
    }
  }

  lemma {:induction false} SetAbove(v: Values, k: string, x: string, lo: string)
    requires Sorted(v) && Above(v, lo) && Less(lo, k)
    ensures Above(Set(v, k, x), lo)
    decreases |v|
  {
    if |v| > 0 && !Less(k, v[0].0) && v[0].0 != k {
      SetAbove(v[1..], k, x, lo);
    }
  }

  /** `Set` keeps the keys ordered and distinct, stores `[x]` under `k` and leaves every other key as it was. */
  lemma {:induction false} SetSpec(v: Values, k: string, x: string)
    requires Sorted(v)
    ensures Sorted(Set(v, k, x))
    ensures Lookup(Set(v, k, x), k) == Some([x])
    ensures forall k' :: k' != k ==> Lookup(Set(v, k, x), k') == Lookup(v, k')
    decreases |v|
  {
    var r := Set(v, k, x);
    if |v| == 0 {
    } else if Less(k, v[0].0) {
      forall j | 1 <= j < |r| ensures Less(k, r[j].0) {
        if j > 1 { LessTransitive(k, v[0].0, v[j - 1].0); }
      }
    } else if v[0].0 == k {
      assert r[1..] == v[1..];
    } else {
      LessTotal(k, v[0].0);
      SetSpec(v[1..], k, x);
      assert Above(v[1..], v[0].0);
      SetAbove(v[1..], k, x, v[0].0);
    }
  }

  /** Setting a key that falls between the keys before index `i` and those from `i` on inserts it there. */
  lemma {:induction false} SetInsert(v: Values, i: nat, k: string, x: string)
    requires i <= |v|
    requires forall j :: 0 <= j < i ==> Less(v[j].0, k)
    requires i < |v| ==> Less(k, v[i].0)
    ensures Set(v, k, x) == v[..i] + [(k, [x])] + v[i..]
    decreases i
  {
    if i > 0 {
      assert v[0].0 != k && !Less(k, v[0].0) by {
        LessIrreflexive(k);
        if Less(k, v[0].0) {
          LessTransitive(k, v[0].0, k);
        }
      }
      SetInsert(v[1..], i - 1, k, x);
      assert v[1..][..i - 1] == v[1..i] && v[1..][i - 1..] == v[i..];
      assert [v[0]] + v[1..i] == v[..i];
    }
  }

  /** A run of `Set` calls on `v`, one per (key, value) of `settings`, in order. */
  function SetAll(v: Values, settings: seq<(string, string)>): Values
    decreases |settings|
  {
    if |settings| == 0 then v else SetAll(Set(v, settings[0].0, settings[0].1), settings[1..])
  }

  lemma SetAllFirst(v: Values, settings: seq<(string, string)>, w: Values)
    requires |settings| > 0 && Set(v, settings[0].0, settings[0].1) == w
    ensures SetAll(v, settings) == SetAll(w, settings[1..])
  {
  }

  /** A `Set` of a key new to `v`, at its sorted place `i`, followed by further `Set`s. */
  lemma SetAllInsert(v: Values, i: int, k: string, x: string, rest: seq<(string, string)>)
    requires 0 <= i <= |v|
    requires forall j :: 0 <= j < i ==> Less(v[j].0, k)
    requires i < |v| ==> Less(k, v[i].0)
    ensures SetAll(v, [(k, x)] + rest) == SetAll(v[..i] + [(k, [x])] + v[i..], rest)
  {
    SetInsert(v, i, k, x);
    SetAllFirst(v, [(k, x)] + rest, v[..i] + [(k, [x])] + v[i..]);
    assert ([(k, x)] + rest)[1..] == rest;
  }

  /** However many `Set` calls are made, the keys stay ordered and distinct, and the last key set holds exactly its value. */
  lemma {:induction false} SetAllSpec(v: Values, settings: seq<(string, string)>)
    requires Sorted(v)
    ensures Sorted(SetAll(v, settings))
    ensures |settings| > 0 ==> Lookup(SetAll(v, settings), settings[|settings| - 1].0) == Some([settings[|settings| - 1].1])
    decreases |settings|
  {
    if |settings| > 0 {
      var w := Set(v, settings[0].0, settings[0].1);
      SetSpec(v, settings[0].0, settings[0].1);
      SetAllSpec(w, settings[1..]);
      if |settings| > 1 {
        assert settings[1..][|settings| - 2] == settings[|settings| - 1];
      }
    }
  }

  /** Keys that ascend from each entry to the next ascend throughout. */
  lemma {:induction false} ChainSorted(v: Values)
    requires forall i :: 0 <= i < |v| - 1 ==> Less(v[i].0, v[i + 1].0)
    ensures Sorted(v)
    decreases |v|
  {
    if |v| > 1 {
      ChainSorted(v[1..]);
      forall j | 1 <= j < |v| ensures Less(v[0].0, v[j].0) {
        if j > 1 {
          assert v[1..][j - 1] == v[j];
          LessTransitive(v[0].0, v[1].0, v[j].0);
        }
      }
      forall i, j | 0 <= i < j < |v| ensures Less(v[i].0, v[j].0) {
        if i > 0 {
          assert v[1..][i - 1] == v[i] && v[1..][j - 1] == v[j];
        }
      }
    }
  }

  /** With one value per key, the pairs are the entries themselves. */
  lemma {:induction false} PairsOfSingletons(v: Values)
    requires forall i :: 0 <= i < |v| ==> |v[i].1| == 1
    ensures Pairs(v) == seq(|v|, i requires 0 <= i < |v| => (v[i].0, v[i].1[0]))
    decreases |v|
  {
    if |v| > 0 {
      PairsOfSingletons(v[1..]);
      assert seq(|v[0].1|, i requires 0 <= i < |v[0].1| => (v[0].0, v[0].1[i])) == [(v[0].0, v[0].1[0])];
    }
  }

  /** The (key, value) pairs of `v` in encoding order: keys ascending, each key's values in order. */
  function Pairs(v: Values): seq<(string, string)>
  {
    if |v| == 0 then [] else seq(|v[0].1|, i requires 0 <= i < |v[0].1| => (v[0].0, v[0].1[i])) + Pairs(v[1..])
  }

  /** Bytes that are never escaped: ASCII letters, digits and `-`, `_`, `.`, `~`. */
  predicate Unreserved(b: int)
  {
    'a' as int <= b <= 'z' as int || 'A' as int <= b <= 'Z' as int || '0' as int <= b <= '9' as int
    || b == '-' as int || b == '_' as int || b == '.' as int || b == '~' as int
  }

  /** The upper-case hexadecimal digit for `n`. */
  function HexDigit(n: int): (c: char)
    requires 0 <= n < 16
    ensures HexValue(c) == Some(n)
    ensures '0' <= c <= '9' || 'A' <= c <= 'F'
  {
    if n < 10 then ('0' as int + n) as char else ('A' as int + n - 10) as char
  }

  /** Value of a hexadecimal digit, in either case. */
  function HexValue(c: char): Option<int>
  {
    if '0' <= c <= '9' then Some(c as int - '0' as int)
    else if 'A' <= c <= 'F' then Some(c as int - 'A' as int + 10)
    else if 'a' <= c <= 'f' then Some(c as int - 'a' as int + 10)
    else None
  }

  /** Characters an escaped component consists of. */
  predicate SafeChar(c: char)
  {
    Unreserved(c as int) || c == '+' || c == '%' || HexValue(c).Some?
  }

  function EscapeByte(b: byte): (s: string)
  {
    if Unreserved(b) then [b as char]
    else if b == ' ' as int then "+"
    else ['%', HexDigit(b / 16), HexDigit(b % 16)]
  }

  function EscapeBytes(b: seq<byte>): (s: string)
    ensures forall i :: 0 <= i < |s| ==> SafeChar(s[i])
  {
    if |b| == 0 then "" else EscapeByte(b[0]) + EscapeBytes(b[1..])
  }

  /**
    `url.QueryEscape`: every byte of the UTF-8 text that is not unreserved is
    written as `%XX`, a space as `+`. The result therefore never holds the
    separators `&` and `=`, so no value can inject a parameter.
  */
  function QueryEscape(s: string): (r: string)
    ensures forall i :: 0 <= i < |r| ==> SafeChar(r[i])
    ensures '&' !in r && '=' !in r
  {
    EscapeBytes(Utf8(s))
  }

  /** `url.QueryUnescape`: `%XX` is one byte, `+` a space, anything else its own UTF-8 bytes; a `%` without two hex digits fails. */
  function Unescape(s: string): (r: Option<seq<byte>>)
    ensures '%' !in s ==> r.Some?
    ensures '%' !in s && '+' !in s ==> r == Some(Utf8(s))
  {
    if |s| == 0 then Some([])
    else if s[0] == '%' then
      if |s| < 3 || HexValue(s[1]).None? || HexValue(s[2]).None? then None
      else
        match Unescape(s[3..])
        case None => None
        case Some(rest) => Some([HexValue(s[1]).value * 16 + HexValue(s[2]).value] + rest)
    else
      match Unescape(s[1..])
      case None => None
      case Some(rest) => Some((if s[0] == '+' then [' ' as int] else Utf8Char(s[0])) + rest)
  }

  /** Every `%` in `s` is followed by two hex digits. */
  predicate EscapesWellFormed(s: string)
  {
    forall i :: 0 <= i < |s| && s[i] == '%' ==> i + 2 < |s| && HexValue(s[i + 1]).Some? && HexValue(s[i + 2]).Some?
  }

  /** Unescaping fails exactly on a `%` that is not followed by two hex digits. */
  lemma {:induction false} UnescapeAccepts(s: string)
    ensures Unescape(s).Some? <==> EscapesWellFormed(s)
    decreases |s|
  {
    if |s| > 0 {
      if s[0] == '%' {
        if !(|s| < 3 || HexValue(s[1]).None? || HexValue(s[2]).None?) {
          var t := s[3..];
          UnescapeAccepts(t);
          if EscapesWellFormed(t) {
            forall i | 0 <= i < |s| && s[i] == '%'
              ensures i + 2 < |s| && HexValue(s[i + 1]).Some? && HexValue(s[i + 2]).Some?
            {
              if i > 0 {
                assert i >= 3 && t[i - 3] == s[i];
              }
            }
          } else {
            var j :| 0 <= j < |t| && t[j] == '%' && !(j + 2 < |t| && HexValue(t[j + 1]).Some? && HexValue(t[j + 2]).Some?);
            assert s[j + 3] == '%';
          }
        }
      } else {
        var t := s[1..];
        UnescapeAccepts(t);
        if EscapesWellFormed(t) {
          forall i | 0 <= i < |s| && s[i] == '%'
            ensures i + 2 < |s| && HexValue(s[i + 1]).Some? && HexValue(s[i + 2]).Some?
          {
            assert t[i - 1] == s[i];
          }
        } else {
          var j :| 0 <= j < |t| && t[j] == '%' && !(j + 2 < |t| && HexValue(t[j + 1]).Some? && HexValue(t[j + 2]).Some?);
          assert s[j + 1] == '%';
        }
      }
    }
  }

  lemma UnescapeEscapeByte(b: byte, s: string)
    ensures Unescape(EscapeByte(b) + s) ==
            match Unescape(s) case None => None case Some(rest) => Some([b] + rest)
  {
    var e := EscapeByte(b);
    if Unreserved(b) {
      assert (e + s)[1..] == s;
    } else if b == ' ' as int {
      assert (e + s)[1..] == s;
    } else {
      assert (e + s)[3..] == s;
    }
  }

  lemma {:induction false} UnescapeEscapeBytes(b: seq<byte>)
    ensures Unescape(EscapeBytes(b)) == Some(b)
    decreases |b|
  {
    if |b| > 0 {
      UnescapeEscapeBytes(b[1..]);
      UnescapeEscapeByte(b[0], EscapeBytes(b[1..]));
      assert [b[0]] + b[1..] == b;
    }
  }

  /** Round trip: unescaping an escaped component gives back its UTF-8 bytes. */
  lemma UnescapeQueryEscape(s: string)
    ensures Unescape(QueryEscape(s)) == Some(Utf8(s))
  {
    UnescapeEscapeBytes(Utf8(s));
  }

  /** One `key=value` piece of an encoded form. */
  function Piece(p: (string, string)): (s: string)
    ensures '&' !in s
  {
    QueryEscape(p.0) + "=" + QueryEscape(p.1)
  }

  function Pieces(ps: seq<(string, string)>): (r: seq<string>)
    ensures |r| == |ps|
    ensures forall i :: 0 <= i < |r| ==> r[i] == Piece(ps[i])
  {
    seq(|ps|, i requires 0 <= i < |ps| => Piece(ps[i]))
  }

  /**
    `v.Encode()`: the escaped pairs, keys in ascending order, joined by `&`.
    No parameters encode as the empty string; otherwise decoding the result
    gives back every pair, in order.
  */
  function Encode(v: Values): (q: string)
    ensures |Pairs(v)| == 0 ==> q == ""
    ensures |Pairs(v)| > 0 ==> DecodeForm(q) == Some(Utf8Pairs(Pairs(v)))
  {
    var ps := Pairs(v);
    if |ps| == 0 then ""
    else
      DecodeEncodedPairs(ps);
      Join(Pieces(ps), '&')
  }

  /** Reference decoder of one piece: the key ends at the first `=`; a piece without `=` has an empty value. */
  function DecodePiece(piece: string): Option<(seq<byte>, seq<byte>)>
  {
    var kv := Split(piece, '=');
    match (Unescape(kv[0]), Unescape(Join(kv[1..], '=')))
    case (Some(k), Some(x)) => Some((k, x))
    case _ => None
  }

  function DecodePieces(pieces: seq<string>): Option<seq<(seq<byte>, seq<byte>)>>
  {
    if |pieces| == 0 then Some([])
    else
      match (DecodePiece(pieces[0]), DecodePieces(pieces[1..]))
      case (Some(p), Some(rest)) => Some([p] + rest)
      case _ => None
  }

  /** Reference decoder of an application/x-www-form-urlencoded body into byte-string pairs. */
  function DecodeForm(q: string): Option<seq<(seq<byte>, seq<byte>)>>
  {
    DecodePieces(Split(q, '&'))
  }

  function Utf8Pairs(ps: seq<(string, string)>): (r: seq<(seq<byte>, seq<byte>)>)
    ensures |r| == |ps|
    ensures forall i :: 0 <= i < |ps| ==> r[i] == (Utf8(ps[i].0), Utf8(ps[i].1))
  {
    seq(|ps|, i requires 0 <= i < |ps| => (Utf8(ps[i].0), Utf8(ps[i].1)))
  }

  lemma DecodePieceOfPiece(p: (string, string))
    ensures DecodePiece(Piece(p)) == Some((Utf8(p.0), Utf8(p.1)))
  {
    var k, x := QueryEscape(p.0), QueryEscape(p.1);
    SplitFirstPiece(k, x, '=');
    SplitWithoutSeparator(x, '=');
    assert Piece(p) == k + ['='] + x;
    assert Split(Piece(p), '=') == [k, x];
    assert [k, x][1..] == [x];
    UnescapeQueryEscape(p.0);
    UnescapeQueryEscape(p.1);
  }

  lemma {:induction false} DecodePiecesOfPairs(ps: seq<(string, string)>)
    ensures DecodePieces(Pieces(ps)) == Some(Utf8Pairs(ps))
    decreases |ps|
  {
    if |ps| > 0 {
      var pieces := Pieces(ps);
      DecodePiecesOfPairs(ps[1..]);
      DecodePieceOfPiece(ps[0]);
      assert pieces[1..] == Pieces(ps[1..]) by {
        assert |pieces[1..]| == |Pieces(ps[1..])|;
      }
      assert Utf8Pairs(ps) == [(Utf8(ps[0].0), Utf8(ps[0].1))] + Utf8Pairs(ps[1..]) by {
        assert |Utf8Pairs(ps)| == 1 + |Utf8Pairs(ps[1..])|;
      }
      DecodePiecesCons(pieces, (Utf8(ps[0].0), Utf8(ps[0].1)), Utf8Pairs(ps[1..]));
    }
  }

  /** Decoding a list of pieces decodes its head, then its tail. */
  lemma DecodePiecesCons(pieces: seq<string>, p: (seq<byte>, seq<byte>), rest: seq<(seq<byte>, seq<byte>)>)
    requires |pieces| > 0 && DecodePiece(pieces[0]) == Some(p) && DecodePieces(pieces[1..]) == Some(rest)
    ensures DecodePieces(pieces) == Some([p] + rest)
  {
  }

  /** Round trip: decoding a non-empty encoded form recovers every pair, in order, as UTF-8 bytes. */
  lemma DecodeEncodedPairs(ps: seq<(string, string)>)
    requires |ps| > 0
    ensures DecodeForm(Join(Pieces(ps), '&')) == Some(Utf8Pairs(ps))
  {
    SplitJoin(Pieces(ps), '&');
    DecodePiecesOfPairs(ps);
  }
}

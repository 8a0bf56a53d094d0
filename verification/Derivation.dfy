/**
 Derivation paths and hierarchical key derivation. The curve arithmetic is a
 parameter: how a master key comes from a seed and a child from its parent.
 */
module Derivation {
  import opened Prelude
  import opened Text

  type u32 = n: int | 0 <= n < TWO_32

  type XPrv = seq<byte>

  datatype DerivationError = InvalidPath | Secp256k1Error

  datatype KeyPair = KeyPair(privateKey: seq<byte>, publicKey: seq<byte>)

  /** SLIP-0010 Ed25519, which always succeeds. */
  datatype Hd = Hd(master: seq<byte> -> XPrv, child: (XPrv, u32) -> XPrv, keys: XPrv -> KeyPair)

  /** BIP-0032 secp256k1, whose steps may fail. */
  datatype Secp = Secp(master: seq<byte> -> Option<XPrv>, child: (XPrv, u32) -> Option<XPrv>, keys: XPrv -> KeyPair)

  /** `trim_end_matches`. */
  function TrimEnd(s: string, ch: char): string {
    if s != [] && s[|s| - 1] == ch then TrimEnd(s[..|s| - 1], ch) else s
  }

  predicate EndsWith(s: string, ch: char) {
    s != [] && s[|s| - 1] == ch
  }

  /** Adding the hardened offset, 2^31, wraps around in 32 bits. */
  function Harden(index: u32): u32 {
    if index < TWO_31 then index + TWO_31 else index - TWO_31
  }

  function ParseIndex(part: string): Option<u32> {
    var hardened := EndsWith(part, '\'') || EndsWith(part, 'h');
    var text := TrimEnd(TrimEnd(part, '\''), 'h');
    match ParseUnsigned(text, TWO_32)
    case None => None
    case Some(index) => Some(if hardened then Harden(index) else index)
  }

  function ParseIndices(parts: seq<string>): Option<seq<u32>> {
    if parts == [] then Some([])
    else Prepend(ParseIndex(parts[0]), ParseIndices(parts[1..]))
  }

  function Prepend(index: Option<u32>, indices: Option<seq<u32>>): Option<seq<u32>> {
    if index.Some? && indices.Some? then Some([index.value] + indices.value) else None
  }

  function Append(indices: Option<seq<u32>>, index: Option<u32>): Option<seq<u32>> {
    if indices.Some? && index.Some? then Some(indices.value + [index.value]) else None
  }

  /** Whatever stands before the first slash only has to begin with `m`. */
  function ParsePath(path: string): Option<seq<u32>> {
    if path == [] || path[0] != 'm' then None else ParseIndices(Split(path, '/')[1..])
  }

  function DeriveAll(hd: Hd, x: XPrv, indices: seq<u32>): XPrv
    decreases |indices|
  {
    if indices == [] then x else DeriveAll(hd, hd.child(x, indices[0]), indices[1..])
  }

  function DerivePath(hd: Hd, seed: seq<byte>, path: string): Result<XPrv, DerivationError> {
    match ParsePath(path)
    case None => Err(InvalidPath)
    case Some(indices) => Ok(DeriveAll(hd, hd.master(seed), indices))
  }

  function DeriveSecpAll(curve: Secp, x: Option<XPrv>, indices: seq<u32>): Option<XPrv>
    decreases |indices|
  {
    if x.None? || indices == [] then x else DeriveSecpAll(curve, curve.child(x.value, indices[0]), indices[1..])
  }

  function DeriveSecpPath(curve: Secp, seed: seq<byte>, path: string): Result<XPrv, DerivationError> {
    match ParsePath(path)
    case None => Err(InvalidPath)
    case Some(indices) =>
      match DeriveSecpAll(curve, curve.master(seed), indices)
      case Some(x) => Ok(x)
      case None => Err(Secp256k1Error)
  }

  /** `None` is the invalid-path error. */
  method ParseDerivationPath(path: string) returns (r: Option<seq<u32>>)
    ensures r == ParsePath(path)
  {
    if path == [] || path[0] != 'm' {
      return None;
    }
    var indices: seq<u32> := [];
    var parts := Split(path, '/')[1..];
    for i := 0 to |parts|
      invariant ParseIndices(parts[..i]) == Some(indices)
    {
      var part := parts[i];
      assert parts[..i + 1] == parts[..i] + [part];
      ParseIndicesAppend(parts[..i], part);
      var hardened := EndsWith(part, '\'') || EndsWith(part, 'h');
      var text := TrimEnd(TrimEnd(part, '\''), 'h');
      var index := ParseUnsigned(text, TWO_32);
      if index.None? {
        ParseIndicesFails(parts, i);
        return None;
      }
      indices := indices + [if hardened then Harden(index.value) else index.value];
    }
    assert parts[..|parts|] == parts;
    return Some(indices);
  }

  lemma {:induction false} ParseIndicesFails(parts: seq<string>, i: nat)
    requires i < |parts| && ParseIndex(parts[i]).None?
    ensures ParseIndices(parts).None?
    decreases i
  {
    if i > 0 {
      ParseIndicesFails(parts[1..], i - 1);
    }
  }

  method DerivePathFromSeed(hd: Hd, seed: seq<byte>, path: string) returns (r: Result<XPrv, DerivationError>)
    ensures r == DerivePath(hd, seed, path)
  {
    var parsed := ParseDerivationPath(path);
    if parsed.None? {
      return Err(InvalidPath);
    }
    var indices := parsed.value;
    var current := hd.master(seed);
    for i := 0 to |indices|
      invariant DeriveAll(hd, hd.master(seed), indices) == DeriveAll(hd, current, indices[i..])
    {
      assert indices[i..][0] == indices[i] && indices[i..][1..] == indices[i + 1..];
      current := hd.child(current, indices[i]);
    }
    return Ok(current);
  }

  // ---- Rendering and parsing back ----

  function RenderIndex(index: u32): string {
    if index >= TWO_31 then Show(index - TWO_31) + "'" else Show(index)
  }

  function RenderPath(indices: seq<u32>): (path: string)
    ensures path != [] && path[0] == 'm'
    decreases |indices|
  {
    if indices == [] then "m"
    else RenderPath(indices[..|indices| - 1]) + "/" + RenderIndex(indices[|indices| - 1])
  }

  lemma TrimDigits(digits: string)
    requires digits != [] && AllDigits(digits)
    ensures TrimEnd(TrimEnd(digits, '\''), 'h') == digits
    ensures TrimEnd(TrimEnd(digits + "'", '\''), 'h') == digits
    ensures !EndsWith(digits, '\'') && !EndsWith(digits, 'h') && EndsWith(digits + "'", '\'')
    ensures '/' !in digits && '/' !in digits + "'"
  {
    assert IsDigit(digits[|digits| - 1]);
    assert (digits + "'")[..|digits|] == digits;
  }

  lemma HardenedComponent(n: u32)
    ensures ParseIndex(Show(n) + "'") == Some(Harden(n))
    ensures '/' !in Show(n) + "'"
  {
    ParseShow(n, TWO_32);
    TrimDigits(Show(n));
  }

  /** Both hardened markers mean the same. */
  lemma MarkersAgree(n: u32)
    ensures ParseIndex(Show(n) + "h") == ParseIndex(Show(n) + "'") == Some(Harden(n))
  {
    HardenedComponent(n);
    ParseShow(n, TWO_32);
    var digits := Show(n);
    assert IsDigit(digits[|digits| - 1]);
    assert (digits + "h")[..|digits|] == digits;
    assert TrimEnd(digits + "h", '\'') == digits + "h";
    assert TrimEnd(digits + "h", 'h') == TrimEnd(digits, 'h') == digits;
  }

  lemma ParseRenderedIndex(index: u32)
    ensures ParseIndex(RenderIndex(index)) == Some(index)
    ensures '/' !in RenderIndex(index)
  {
    if index >= TWO_31 {
      HardenedComponent(index - TWO_31);
    } else {
      ParseShow(index, TWO_32);
      TrimDigits(Show(index));
    }
  }

  lemma PrependAppend(a: Option<u32>, indices: Option<seq<u32>>, b: Option<u32>)
    ensures Prepend(a, Append(indices, b)) == Append(Prepend(a, indices), b)
  {
    if a.Some? && indices.Some? && b.Some? {
      assert [a.value] + (indices.value + [b.value]) == ([a.value] + indices.value) + [b.value];
    }
  }

  lemma {:induction false} ParseIndicesAppend(parts: seq<string>, part: string)
    ensures ParseIndices(parts + [part]) == Append(ParseIndices(parts), ParseIndex(part))
    decreases |parts|
  {
    var longer := parts + [part];
    if parts == [] {
      assert longer[0] == part && longer[1..] == [];
      assert ParseIndices(longer[1..]) == Some([]);
      assert forall index: u32 :: [index] + [] == [] + [index];
    } else {
      assert longer[0] == parts[0] && longer[1..] == parts[1..] + [part];
      ParseIndicesAppend(parts[1..], part);
      PrependAppend(ParseIndex(parts[0]), ParseIndices(parts[1..]), ParseIndex(part));
    }
  }

  /** Appending one component to any path appends its index, or spoils the path. */
  lemma ParseExtended(path: string, part: string)
    requires path != [] && path[0] == 'm' && '/' !in part
    ensures ParsePath(path + "/" + part) == Append(ParsePath(path), ParseIndex(part))
  {
    SplitAt(path, '/', part);
    SplitWhole(part, '/');
    assert (Split(path, '/') + [part])[1..] == Split(path, '/')[1..] + [part];
    ParseIndicesAppend(Split(path, '/')[1..], part);
  }

  /** Every list of child indices survives being written out as a path. */
  lemma {:induction false} ParseRenderedPath(indices: seq<u32>)
    ensures ParsePath(RenderPath(indices)) == Some(indices)
    decreases |indices|
  {
    if indices == [] {
      RootPath();
    } else {
      var front, last := indices[..|indices| - 1], indices[|indices| - 1];
      ParseRenderedPath(front);
      ParseOneMore(RenderPath(front), front, last);
      assert front + [last] == indices;
    }
  }

  lemma ParseOneMore(path: string, indices: seq<u32>, index: u32)
    requires path != [] && path[0] == 'm' && ParsePath(path) == Some(indices)
    ensures ParsePath(path + "/" + RenderIndex(index)) == Some(indices + [index])
  {
    ParseRenderedIndex(index);
    ParseExtended(path, RenderIndex(index));
  }

  lemma RootPath()
    ensures ParsePath("m") == Some([])
  {
    SplitWhole("m", '/');
  }

  // ---- Device paths ----

  function DevicePath(index: u32): string {
    "m/74'/0'/0'/" + Show(index) + "'"
  }

  const DEVICE_BRANCH: seq<u32> := [TWO_31 + 74, TWO_31, TWO_31]

  lemma DevicePathShape(n: u32)
    ensures DevicePath(n) == RenderPath(DEVICE_BRANCH) + "/" + (Show(n) + "'")
  {
    assert DEVICE_BRANCH[..2] == [TWO_31 + 74, TWO_31];
    assert DEVICE_BRANCH[..2][..1] == [TWO_31 + 74];
    assert DEVICE_BRANCH[..2][..1][..0] == [];
    assert Show(7) == "7" && Show(74) == "74" && Show(0) == "0";
    assert RenderPath(DEVICE_BRANCH[..2][..1]) == "m/74'";
    assert RenderPath(DEVICE_BRANCH[..2]) == "m/74'/0'";
    assert RenderPath(DEVICE_BRANCH) == "m/74'/0'/0'";
  }

  /**
   A device path has four hardened components precisely for indices below
   2^31; above, the offset wraps and the last component is an ordinary one.
   */
  lemma DevicePathParses(n: u32)
    ensures ParsePath(DevicePath(n)) == Some(DEVICE_BRANCH + [Harden(n)])
    ensures (forall i :: 0 <= i < 4 ==> (DEVICE_BRANCH + [Harden(n)])[i] >= TWO_31) <==> n < TWO_31
  {
    DevicePathShape(n);
    ParseRenderedPath(DEVICE_BRANCH);
    HardenedComponent(n);
    ParseExtended(RenderPath(DEVICE_BRANCH), Show(n) + "'");
    assert (DEVICE_BRANCH + [Harden(n)])[3] == Harden(n);
  }

  /** Different devices have different paths and different indices. */
  lemma DevicePathInjective(n: u32, n': u32)
    requires ParsePath(DevicePath(n)) == ParsePath(DevicePath(n'))
    ensures n == n'
  {
    DevicePathParses(n);
    DevicePathParses(n');
    assert (DEVICE_BRANCH + [Harden(n)])[3] == (DEVICE_BRANCH + [Harden(n')])[3];
  }

  /** Above 2^31 the same keys are also reached by a path with an ordinary last component. */
  lemma DevicePathCollides(n: u32)
    requires n >= TWO_31
    ensures ParsePath(DevicePath(n)) == ParsePath(RenderPath(DEVICE_BRANCH + [n - TWO_31]))
  {
    DevicePathParses(n);
    ParseRenderedPath(DEVICE_BRANCH + [n - TWO_31]);
  }

  // ---- Deriving step by step ----

  /** Deriving along two stretches in turn is deriving along their concatenation. */
  lemma {:induction false} DeriveInStages(hd: Hd, x: XPrv, a: seq<u32>, b: seq<u32>)
    ensures DeriveAll(hd, x, a + b) == DeriveAll(hd, DeriveAll(hd, x, a), b)
    decreases |a|
  {
    if a == [] {
      assert a + b == b;
    } else {
      assert (a + b)[1..] == a[1..] + b;
      DeriveInStages(hd, hd.child(x, a[0]), a[1..], b);
    }
  }

  /** A path one component longer derives one more child of what the shorter path derives. */
  lemma DeriveExtendedPath(hd: Hd, seed: seq<byte>, path: string, part: string)
    requires '/' !in part && DerivePath(hd, seed, path).Ok? && ParseIndex(part).Some?
    ensures DerivePath(hd, seed, path + "/" + part) ==
            Ok(hd.child(DerivePath(hd, seed, path).value, ParseIndex(part).value))
  {
    ParseExtended(path, part);
    DeriveInStages(hd, hd.master(seed), ParsePath(path).value, [ParseIndex(part).value]);
  }

  /** The key at the end of a list of child indices: a child of the key one index earlier. */
  function HdKey(hd: Hd, seed: seq<byte>, indices: seq<u32>): XPrv
    decreases |indices|
  {
    if indices == [] then hd.master(seed)
    else hd.child(HdKey(hd, seed, indices[..|indices| - 1]), indices[|indices| - 1])
  }

  function SecpKey(curve: Secp, seed: seq<byte>, indices: seq<u32>): Option<XPrv>
    decreases |indices|
  {
    if indices == [] then curve.master(seed)
    else
      match SecpKey(curve, seed, indices[..|indices| - 1])
      case None => None
      case Some(x) => curve.child(x, indices[|indices| - 1])
  }

  lemma {:induction false} DeriveAllIsHdKey(hd: Hd, seed: seq<byte>, indices: seq<u32>)
    ensures DeriveAll(hd, hd.master(seed), indices) == HdKey(hd, seed, indices)
    decreases |indices|
  {
    if indices != [] {
      var front, last := indices[..|indices| - 1], indices[|indices| - 1];
      assert indices == front + [last];
      DeriveAllIsHdKey(hd, seed, front);
      DeriveInStages(hd, hd.master(seed), front, [last]);
    }
  }

  lemma {:induction false} SecpInStages(curve: Secp, x: Option<XPrv>, a: seq<u32>, b: seq<u32>)
    ensures DeriveSecpAll(curve, x, a + b) == DeriveSecpAll(curve, DeriveSecpAll(curve, x, a), b)
    decreases |a|
  {
    if a == [] {
      assert a + b == b;
    } else if x.Some? {
      assert (a + b)[1..] == a[1..] + b;
      SecpInStages(curve, curve.child(x.value, a[0]), a[1..], b);
    }
  }

  lemma {:induction false} DeriveSecpAllIsSecpKey(curve: Secp, seed: seq<byte>, indices: seq<u32>)
    ensures DeriveSecpAll(curve, curve.master(seed), indices) == SecpKey(curve, seed, indices)
    decreases |indices|
  {
    if indices != [] {
      var front, last := indices[..|indices| - 1], indices[|indices| - 1];
      assert indices == front + [last];
      DeriveSecpAllIsSecpKey(curve, seed, front);
      SecpInStages(curve, curve.master(seed), front, [last]);
      var x := SecpKey(curve, seed, front);
      assert [last][1..] == [];
    }
  }

  /**
   What either curve derives, for every seed and every path: the path's indices
   lead from the seed's master key from child to child; a bad path fails first,
   and a secp256k1 derivation fails exactly when one of its steps does.
   */
  lemma DerivationMeaning(hd: Hd, curve: Secp, seed: seq<byte>, path: string)
    ensures DerivePath(hd, seed, path) ==
            match ParsePath(path)
            case None => Err(InvalidPath)
            case Some(indices) => Ok(HdKey(hd, seed, indices))
    ensures DeriveSecpPath(curve, seed, path) ==
            match ParsePath(path)
            case None => Err(InvalidPath)
            case Some(indices) =>
              match SecpKey(curve, seed, indices) case None => Err(Secp256k1Error) case Some(x) => Ok(x)
  {
    if ParsePath(path).Some? {
      DeriveAllIsHdKey(hd, seed, ParsePath(path).value);
      DeriveSecpAllIsSecpKey(curve, seed, ParsePath(path).value);
    }
  }

  /** The step from this prefix to the next fails. */
  predicate FailsAt(curve: Secp, seed: seq<byte>, indices: seq<u32>, i: nat)
    requires i < |indices|
  {
    SecpKey(curve, seed, indices[..i]).Some? &&
    curve.child(SecpKey(curve, seed, indices[..i]).value, indices[i]).None?
  }

  lemma {:induction false} SecpFailsIff(curve: Secp, seed: seq<byte>, indices: seq<u32>)
    ensures SecpKey(curve, seed, indices).None? <==>
            curve.master(seed).None? || exists i :: 0 <= i < |indices| && FailsAt(curve, seed, indices, i)
    decreases |indices|
  {
    if indices != [] {
      var n := |indices| - 1;
      var front := indices[..n];
      SecpFailsIff(curve, seed, front);
      forall i | 0 <= i < n
        ensures FailsAt(curve, seed, front, i) <==> FailsAt(curve, seed, indices, i)
      {
        assert front[..i] == indices[..i];
      }
      if SecpKey(curve, seed, front).Some? {
        assert FailsAt(curve, seed, indices, n) <==> SecpKey(curve, seed, indices).None?;
      } else if i :| 0 <= i < n && FailsAt(curve, seed, front, i) {
        assert FailsAt(curve, seed, indices, i);
      }
    }
  }

  method DeriveSecpPathFromSeed(curve: Secp, seed: seq<byte>, path: string)
    returns (r: Result<XPrv, DerivationError>)
    ensures r == DeriveSecpPath(curve, seed, path)
  {
    var parsed := ParseDerivationPath(path);
    if parsed.None? {
      return Err(InvalidPath);
    }
    var indices := parsed.value;
    var current := curve.master(seed);
    if current.None? {
      return Err(Secp256k1Error);
    }
    for i := 0 to |indices|
      invariant current.Some?
      invariant DeriveSecpAll(curve, curve.master(seed), indices) == DeriveSecpAll(curve, current, indices[i..])
    {
      assert indices[i..][0] == indices[i] && indices[i..][1..] == indices[i + 1..];
      current := curve.child(current.value, indices[i]);
      if current.None? {
        return Err(Secp256k1Error);
      }
    }
    return Ok(current.value);
  }

  // ---- Exactly which paths are accepted ----

  function Repeat(ch: char, n: nat): string {
    if n == 0 then "" else Repeat(ch, n - 1) + [ch]
  }

  lemma {:induction false} TrimRepeat(s: string, ch: char, n: nat)
    requires !EndsWith(s, ch)
    ensures TrimEnd(s + Repeat(ch, n), ch) == s
    ensures EndsWith(s + Repeat(ch, n), ch) <==> n > 0
    decreases n
  {
    if n == 0 {
      assert s + "" == s;
    } else {
      var longer := s + Repeat(ch, n);
      assert longer[..|longer| - 1] == s + Repeat(ch, n - 1);
      TrimRepeat(s, ch, n - 1);
    }
  }

  lemma {:induction false} TrimmedOff(s: string, ch: char) returns (n: nat)
    ensures s == TrimEnd(s, ch) + Repeat(ch, n) && !EndsWith(TrimEnd(s, ch), ch)
    decreases |s|
  {
    if EndsWith(s, ch) {
      var front := s[..|s| - 1];
      n := TrimmedOff(front, ch);
      assert s == front + [ch];
      n := n + 1;
      assert s == TrimEnd(s, ch) + Repeat(ch, n);
    } else {
      n := 0;
      assert s + "" == s;
    }
  }

  /** A number, then any number of `h`, then any number of quotes; with either, the index is hardened. */
  ghost predicate IsComponent(part: string, number: string, hs: nat, quotes: nat, index: u32) {
    && part == number + Repeat('h', hs) + Repeat('\'', quotes)
    && ParseUnsigned(number, TWO_32).Some?
    && index == (if hs + quotes > 0 then Harden(ParseUnsigned(number, TWO_32).value)
                 else ParseUnsigned(number, TWO_32).value)
  }

  lemma NumberEnd(number: string)
    requires ParseUnsigned(number, TWO_32).Some?
    ensures !EndsWith(number, 'h') && !EndsWith(number, '\'')
  {
    var digits := if number != [] && number[0] == '+' then number[1..] else number;
    assert IsDigit(digits[|digits| - 1]);
    assert number[|number| - 1] == digits[|digits| - 1];
  }

  lemma ComponentParses(part: string, number: string, hs: nat, quotes: nat, index: u32)
    requires IsComponent(part, number, hs, quotes, index)
    ensures ParseIndex(part) == Some(index)
  {
    NumberEnd(number);
    TrimRepeat(number, 'h', hs);
    var front := number + Repeat('h', hs);
    assert !EndsWith(front, '\'') by {
      if hs > 0 {
        assert front == number + Repeat('h', hs - 1) + "h";
      } else {
        assert front == number;
      }
    }
    TrimRepeat(front, '\'', quotes);
    if quotes == 0 {
      assert part == front;
    }
  }

  /** The parser accepts precisely these components and gives them these indices. */
  lemma ComponentIff(part: string, index: u32)
    ensures ParseIndex(part) == Some(index) <==>
            exists number: string, hs: nat, quotes: nat :: IsComponent(part, number, hs, quotes, index)
  {
    if ParseIndex(part) == Some(index) {
      var quotes := TrimmedOff(part, '\'');
      var front := TrimEnd(part, '\'');
      var hs := TrimmedOff(front, 'h');
      var number := TrimEnd(front, 'h');
      NumberEnd(number);
      TrimRepeat(front, '\'', quotes);
      TrimRepeat(number, 'h', hs);
      if quotes == 0 {
        assert part == front;
      } else {
        assert part == (front + Repeat('\'', quotes - 1)) + "'";
      }
      assert IsComponent(part, number, hs, quotes, index);
    }
    forall number: string, hs: nat, quotes: nat | IsComponent(part, number, hs, quotes, index)
      ensures ParseIndex(part) == Some(index)
    {
      ComponentParses(part, number, hs, quotes, index);
    }
  }

  /** Slash-separated: something that begins with `m`, then one component for each index. */
  predicate IsPath(path: string, parts: seq<string>, indices: seq<u32>) {
    && |parts| == 1 + |indices| && Clean(parts, '/') && path == Join(parts, '/')
    && parts[0] != [] && parts[0][0] == 'm'
    && forall i :: 0 <= i < |indices| ==> ParseIndex(parts[1 + i]) == Some(indices[i])
  }

  lemma {:induction false} ParseIndicesIff(parts: seq<string>, indices: seq<u32>)
    ensures ParseIndices(parts) == Some(indices) <==>
            |parts| == |indices| && forall i :: 0 <= i < |parts| ==> ParseIndex(parts[i]) == Some(indices[i])
    decreases |parts|
  {
    if parts != [] && indices != [] {
      ParseIndicesIff(parts[1..], indices[1..]);
      assert [indices[0]] + indices[1..] == indices;
      if |parts| == |indices| && ParseIndex(parts[0]) == Some(indices[0]) &&
         (forall i :: 0 <= i < |parts| - 1 ==> ParseIndex(parts[1..][i]) == Some(indices[1..][i])) {
        forall i | 0 <= i < |parts| ensures ParseIndex(parts[i]) == Some(indices[i]) {
          assert i > 0 ==> parts[i] == parts[1..][i - 1] && indices[i] == indices[1..][i - 1];
        }
      }
    }
  }

  /** Exactly the paths of that form are accepted, with exactly those indices; everything else is rejected. */
  lemma PathIff(path: string, indices: seq<u32>)
    ensures ParsePath(path) == Some(indices) <==> exists parts: seq<string> :: IsPath(path, parts, indices)
  {
    var split := Split(path, '/');
    SplitIff(path, '/', split);
    HeadOfJoin(split, '/');
    ParseIndicesIff(split[1..], indices);
    if ParsePath(path) == Some(indices) {
      assert forall i :: 0 <= i < |indices| ==> split[1 + i] == split[1..][i];
      assert IsPath(path, split, indices);
    }
    forall parts: seq<string> | IsPath(path, parts, indices)
      ensures ParsePath(path) == Some(indices)
    {
      SplitIff(path, '/', parts);
      assert forall i :: 0 <= i < |indices| ==> split[1..][i] == parts[1 + i];
    }
  }

  /** A text begins as its first part does, unless that is empty. */
  lemma HeadOfJoin(parts: seq<string>, sep: char)
    requires parts != [] && Clean(parts, sep)
    ensures var s := Join(parts, sep);
            if parts[0] == [] then s == [] || s[0] == sep else s != [] && s[0] == parts[0][0]
  {
  }
}

/** A response flattened for the store, and back. */
module Freeze {
  import opened Basics
  import opened CacheFlat

  /** Header names in lower case, each with its values in order. */
  type Headers = map<string, seq<string>>

  datatype Response = Response(status: nat, headers: Headers, body: seq<byte>)

  /** What the store remembers. Text is kept as the bytes it is made of. */
  datatype Frozen = Frozen(status: int, headers: seq<(string, string)>, encoding: string, body: seq<byte>,
      fingerprint: string)

  // ----- Headers -----

  predicate IsControl(c: char) {
    c as int < 32 || 127 <= c as int < 160
  }

  function Sanitise(s: string): string {
    if s == [] then [] else (if s[0] == '\t' || !IsControl(s[0]) then [s[0]] else []) + Sanitise(s[1..])
  }

  function LowerChar(c: char): char {
    if 'A' <= c <= 'Z' then (c as int + 32) as char else c
  }

  function Lower(s: string): string {
    seq(|s|, i requires 0 <= i < |s| => LowerChar(s[i]))
  }

  function Append(h: Headers, name: string, value: string): Headers {
    var n := Lower(Sanitise(name));
    h[n := (if n in h then h[n] else []) + [Sanitise(value)]]
  }

  function Set(h: Headers, name: string, value: string): Headers {
    h[Lower(Sanitise(name)) := [Sanitise(value)]]
  }

  function AppendAll(h: Headers, pairs: seq<(string, string)>): Headers
    decreases |pairs|
  {
    if pairs == [] then h else AppendAll(Append(h, pairs[0].0, pairs[0].1), pairs[1..])
  }

  /** A character that sanitising leaves in place. */
  predicate CleanChar(c: char) {
    c == '\t' || !IsControl(c)
  }

  predicate Clean(s: string) {
    forall i :: 0 <= i < |s| ==> CleanChar(s[i])
  }

  predicate IsLower(s: string) {
    forall i :: 0 <= i < |s| ==> LowerChar(s[i]) == s[i]
  }

  /** What `Set` and `Append` build: clean lower-case names with at least one clean value each. */
  ghost predicate Tidy(h: Headers) {
    forall n :: n in h ==> Clean(n) && IsLower(n) && h[n] != [] && forall i :: 0 <= i < |h[n]| ==> Clean(h[n][i])
  }

  lemma {:induction false} SanitiseCleans(s: string)
    ensures Clean(Sanitise(s)) && (Clean(s) ==> Sanitise(s) == s)
  {
    if s != [] {
      SanitiseCleans(s[1..]);
      assert Clean(s) ==> Clean(s[1..]) && CleanChar(s[0]);
      assert s == [s[0]] + s[1..];
    }
  }

  lemma LowerKeepsClean(s: string)
    ensures IsLower(Lower(s)) && (Clean(s) ==> Clean(Lower(s))) && (IsLower(s) ==> Lower(s) == s)
  {
    if IsLower(s) {
      assert forall i :: 0 <= i < |s| ==> Lower(s)[i] == s[i];
    }
  }

  /** What a header may hold: no line break or other control character but the tab. */
  predicate Printable(c: char) {
    c == '\t' || ' ' <= c <= '~' || c as int >= 160
  }

  /** Sanitising drops the control characters and keeps all others in order. */
  lemma {:induction false} SanitiseDropsControls(s: string, c: char)
    ensures forall d :: d in Sanitise(s) ==> Printable(d)
    ensures Sanitise(s + [c]) == if Printable(c) then Sanitise(s) + [c] else Sanitise(s)
  {
    if s == [] {
      assert s + [c] == [c] && [c][1..] == [];
    } else {
      SanitiseDropsControls(s[1..], c);
      var first := if s[0] == '\t' || !IsControl(s[0]) then [s[0]] else [];
      assert (s + [c])[0] == s[0] && (s + [c])[1..] == s[1..] + [c];
      assert Sanitise(s + [c]) == first + Sanitise(s[1..] + [c]);
      assert Sanitise(s) == first + Sanitise(s[1..]);
    }
  }

  const CAPITALS := "ABCDEFGHIJKLMNOPQRSTUVWXYZ"
  const SMALL := "abcdefghijklmnopqrstuvwxyz"

  /** Lower case changes the capital letters, and nothing else. */
  lemma LowerChangesCapitals(s: string, i: nat)
    requires i < |s|
    ensures |Lower(s)| == |s|
    ensures forall k :: 0 <= k < 26 && s[i] == CAPITALS[k] ==> Lower(s)[i] == SMALL[k]
    ensures !('A' <= s[i] <= 'Z') ==> Lower(s)[i] == s[i]
  {}

  /** Tidy headers have names without capitals or control characters, and values without control characters. */
  lemma TidyMeans(h: Headers)
    ensures Tidy(h) <==>
              forall n :: n in h ==>
                && (forall i :: 0 <= i < |n| ==> Printable(n[i]) && !('A' <= n[i] <= 'Z'))
                && h[n] != [] && forall j, i :: 0 <= j < |h[n]| && 0 <= i < |h[n][j]| ==> Printable(h[n][j][i])
  {
    forall n | n in h
      ensures (Clean(n) && IsLower(n)) <==> forall i :: 0 <= i < |n| ==> Printable(n[i]) && !('A' <= n[i] <= 'Z')
      ensures (forall j :: 0 <= j < |h[n]| ==> Clean(h[n][j])) <==>
                forall j, i :: 0 <= j < |h[n]| && 0 <= i < |h[n][j]| ==> Printable(h[n][j][i])
    {}
  }

  /** Headers stay tidy, however they are built. */
  lemma HeadersStayTidy(h: Headers, name: string, value: string)
    requires Tidy(h)
    ensures Tidy(Append(h, name, value)) && Tidy(Set(h, name, value))
  {
    hide Sanitise, Lower, Clean, IsLower;
    SanitiseCleans(name);
    SanitiseCleans(value);
    LowerKeepsClean(Sanitise(name));
  }

  /** The pairs of one name. */
  function PairsOf(name: string, values: seq<string>): seq<(string, string)> {
    seq(|values|, i requires 0 <= i < |values| => (name, values[i]))
  }

  /** Every pair, name after name in the order given. */
  function Pairs(h: Headers, order: seq<string>): seq<(string, string)>
    requires forall n :: n in order ==> n in h
  {
    if order == [] then [] else PairsOf(order[0], h[order[0]]) + Pairs(h, order[1..])
  }

  /** `order` names every header once. */
  ghost predicate Lists(order: seq<string>, h: Headers) {
    && (forall n :: n in order <==> n in h)
    && AllDiffer(order)
  }

  lemma {:induction false} AppendAllSplits(h: Headers, p: seq<(string, string)>, q: seq<(string, string)>)
    ensures AppendAll(h, p + q) == AppendAll(AppendAll(h, p), q)
    decreases |p|
  {
    if p == [] {
      assert p + q == q;
    } else {
      assert (p + q)[1..] == p[1..] + q;
      AppendAllSplits(Append(h, p[0].0, p[0].1), p[1..], q);
    }
  }

  /** Appending the values of one name adds that name with those values. */
  lemma {:induction false} AppendOneName(h: Headers, name: string, done: seq<string>, values: seq<string>)
    requires Clean(name) && IsLower(name) && (forall i :: 0 <= i < |values| ==> Clean(values[i]))
    requires if done == [] then name !in h else name in h && h[name] == done
    requires values != [] || done != []
    ensures AppendAll(h, PairsOf(name, values)) == h[name := done + values]
    decreases |values|
  {
    SanitiseCleans(name);
    LowerKeepsClean(name);
    hide Sanitise, Lower, Clean, IsLower;
    if values == [] {
      assert done + values == done && h[name := done] == h;
    } else {
      SanitiseCleans(values[0]);
      var next := Append(h, name, values[0]);
      assert next == h[name := done + [values[0]]];
      assert PairsOf(name, values)[1..] == PairsOf(name, values[1..]);
      AppendOneName(next, name, done + [values[0]], values[1..]);
      assert done + [values[0]] + values[1..] == done + values;
    }
  }

  /** The headers with the names listed. */
  function Only(h: Headers, order: seq<string>): Headers
    requires forall n :: n in order ==> n in h
  {
    map n | n in order :: h[n]
  }

  lemma OnlyGrows(h: Headers, built: Headers, order: seq<string>)
    requires order != [] && forall n :: n in order ==> n in h
    ensures built[order[0] := h[order[0]]] + Only(h, order[1..]) == built + Only(h, order)
  {
    assert forall n :: n in order <==> n == order[0] || n in order[1..];
  }

  ghost predicate AllDiffer(order: seq<string>) {
    forall i, j :: 0 <= i < j < |order| ==> order[i] != order[j]
  }

  lemma RestDiffers(order: seq<string>)
    requires order != [] && AllDiffer(order)
    ensures AllDiffer(order[1..]) && order[0] !in order[1..] && forall n :: n in order[1..] ==> n in order
  {}

  lemma {:induction false} AppendRest(h: Headers, built: Headers, order: seq<string>)
    requires Tidy(h) && AllDiffer(order) && forall n :: n in order ==> n in h && n !in built
    ensures AppendAll(built, Pairs(h, order)) == built + Only(h, order)
    decreases |order|
  {
    hide Clean, IsLower, Only, AllDiffer;
    if order == [] {
      NothingListed(h, built);
    } else {
      var name, rest := order[0], order[1..];
      RestDiffers(order);
      var more := built[name := h[name]];
      AppendOneName(built, name, [], h[name]);
      assert [] + h[name] == h[name];
      AppendAllSplits(built, PairsOf(name, h[name]), Pairs(h, rest));
      AppendRest(h, more, rest);
      OnlyGrows(h, built, order);
    }
  }

  lemma NothingListed(h: Headers, built: Headers)
    ensures built + Only(h, []) == built
  {}

  /** Reading the pairs back gives the headers, in whatever order the names were listed. */
  lemma HeadersReadBack(h: Headers, order: seq<string>)
    requires Tidy(h) && Lists(order, h)
    ensures AppendAll(map[], Pairs(h, order)) == h
  {
    AppendRest(h, map[], order);
    assert Only(h, order) == h;
  }

  // ----- Bodies -----

  function HexDigit(d: nat): byte
    requires d < 16
  {
    if d < 10 then 48 + d else 87 + d
  }

  function HexOf(b: byte): seq<byte> {
    [HexDigit(b / 16), HexDigit(b % 16)]
  }

  function ToHex(body: seq<byte>): seq<byte> {
    if body == [] then [] else HexOf(body[0]) + ToHex(body[1..])
  }

  /** Hex is printed in small digits, the high one first. */
  lemma HexIsPrinted(b: byte)
    ensures var digits := "0123456789abcdef";
            HexOf(b) == [digits[b / 16] as int, digits[b % 16] as int]
  {}

  /** A digit in either case. */
  function DigitValue(c: byte): Option<nat> {
    if 48 <= c <= 57 then Some(c - 48)
    else if 97 <= c <= 102 then Some(c - 87)
    else if 65 <= c <= 70 then Some(c - 55)
    else None
  }

  /** One chunk of at most two characters in base sixteen; a plus sign may lead. */
  function ParseChunk(s: seq<byte>): Option<byte>
    requires 1 <= |s| <= 2
  {
    if |s| == 1 then (
      match DigitValue(s[0])
      case Some(v) => Some(v)
      case None => None
    ) else if s[0] == 43 then (
      match DigitValue(s[1])
      case Some(v) => Some(v)
      case None => None
    ) else (
      match (DigitValue(s[0]), DigitValue(s[1]))
      case (Some(v), Some(w)) => Some(16 * v + w)
      case _ => None
    )
  }

  function FromHex(s: seq<byte>): Option<seq<byte>>
    decreases |s|
  {
    if s == [] then Some([])
    else
      var n := if |s| == 1 then 1 else 2;
      match (ParseChunk(s[..n]), FromHex(s[n..]))
      case (Some(b), Some(rest)) => Some([b] + rest)
      case _ => None
  }

  lemma {:induction false} HexReadsBack(body: seq<byte>)
    ensures FromHex(ToHex(body)) == Some(body)
  {
    if body != [] {
      var b, s := body[0], ToHex(body);
      HexReadsBack(body[1..]);
      assert s[..2] == HexOf(b) && s[2..] == ToHex(body[1..]);
      assert ParseChunk(HexOf(b)) == Some(b);
      assert [b] + body[1..] == body;
    }
  }

  // ----- Freeze and thaw -----

  /** Text is kept as it is, anything else in hex; which bytes are text is not looked into. */
  function Frost(r: Response, order: seq<string>, mark: string, isText: seq<byte> -> bool): Frozen
    requires forall n :: n in order ==> n in r.headers
  {
    Frozen(r.status, Pairs(r.headers, order), if isText(r.body) then "utf8" else "hex",
           if isText(r.body) then r.body else ToHex(r.body), mark)
  }

  function Thaw(f: Frozen): Option<Response> {
    if !(0 <= f.status < 65536) then None else
      var headers := AppendAll(map[], f.headers);
      if f.encoding == "hex" then (
        match FromHex(f.body)
        case Some(body) => Some(Response(f.status, headers, body))
        case None => None
      ) else Some(Response(f.status, headers, f.body))
  }

  /** Thawing what was frozen gives the response back, text or not. */
  lemma ThawUndoesFreeze(r: Response, order: seq<string>, mark: string, isText: seq<byte> -> bool)
    requires Tidy(r.headers) && Lists(order, r.headers) && r.status < 65536
    ensures Thaw(Frost(r, order, mark, isText)) == Some(r)
  {
    HeadersReadBack(r.headers, order);
    HexReadsBack(r.body);
  }
}

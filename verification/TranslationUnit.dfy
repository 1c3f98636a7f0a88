/** The text assembled from a naming pass (`naming/loop.py`). */
module TranslationUnit {
  import opened Wrappers

  datatype FunctionNaming<T> = FunctionNaming(
    address: T, originalName: string, assignedName: string, isExternal: bool, inferred: bool, renamedC: Option<string>)

  function UnitHeader(): string { "/* vivarium semantic-naming reference output (best-effort; NOT a guarantee) */\n" }

  function Declaration(name: string): string { "extern void " + name + "(void); /* external/imported */" }

  function Externs<T>(results: seq<FunctionNaming<T>>): seq<string> {
    if results == [] then []
    else
      var r := results[|results| - 1];
      Externs(results[..|results| - 1]) + if r.isExternal then [Declaration(r.assignedName)] else []
  }

  function Bodies<T>(results: seq<FunctionNaming<T>>): seq<string> {
    if results == [] then []
    else
      var r := results[|results| - 1];
      Bodies(results[..|results| - 1]) + if r.inferred && r.renamedC.Some? then [r.renamedC.value] else []
  }

  function Joined(parts: seq<string>, separator: string): string {
    if parts == [] then "" else if |parts| == 1 then parts[0] else parts[0] + separator + Joined(parts[1..], separator)
  }

  function Assemble<T>(results: seq<FunctionNaming<T>>): string {
    var externs := Externs(results);
    Joined([UnitHeader()] + (if externs == [] then [] else [Joined(externs, "\n")]) + Bodies(results), "\n\n") + "\n"
  }

  // ---------- where the parts are

  /** `part` stands in `text` at position `p`. */
  ghost predicate Holds(text: string, p: nat, part: string) {
    p + |part| <= |text| && text[p..p + |part|] == part
  }

  lemma HoldsInside(text: string, p: nat, mid: string, q: nat, part: string)
    requires Holds(text, p, mid) && Holds(mid, q, part)
    ensures Holds(text, p + q, part)
  {
    assert mid == text[p..p + |mid|];
    forall k | 0 <= k < |part| ensures text[p + q..p + q + |part|][k] == part[k] {
      assert part[k] == mid[q..q + |part|][k] == mid[q + k] == text[p + q + k];
    }
  }

  /** The i-th part is in its place: the separator and the next one follow it, or the text ends. */
  ghost predicate Piece(text: string, parts: seq<string>, separator: string, at: seq<nat>, i: nat)
    requires i < |parts| == |at|
  {
    && Holds(text, at[i], parts[i])
    && if i == |parts| - 1 then at[i] + |parts[i]| == |text|
       else at[i + 1] == at[i] + |parts[i]| + |separator| && Holds(text, at[i] + |parts[i]|, separator)
  }

  /** The parts stand in `text` one after the other at the positions `at`, separated, from its beginning to its end. */
  ghost predicate Strung(text: string, parts: seq<string>, separator: string, at: seq<nat>) {
    && |at| == |parts|
    && (parts != [] ==> at[0] == 0)
    && forall i :: 0 <= i < |parts| ==> Piece(text, parts, separator, at, i)
  }

  lemma ThreeHold(first: string, second: string, third: string)
    ensures var text := first + second + third; Holds(text, 0, first) && Holds(text, |first|, second) && Holds(text, |first| + |second|, third)
  {
  }

  lemma StrungNext(text: string, parts: seq<string>, separator: string, at: seq<nat>, i: nat)
    requires Strung(text, parts, separator, at) && i < |parts|
    ensures Holds(text, at[i], parts[i]) && at[i] + |parts[i]| <= |text|
    ensures i + 1 < |parts| ==> at[i + 1] == at[i] + |parts[i]| + |separator| && Holds(text, at[i] + |parts[i]|, separator)
    ensures i + 1 == |parts| ==> at[i] + |parts[i]| == |text|
    ensures at[0] == 0
  {
    assert Piece(text, parts, separator, at, i);
  }

  function Shifted(rest: seq<nat>, shift: nat): (at: seq<nat>)
    ensures |at| == |rest| + 1 && at[0] == 0 && forall i, j :: 0 <= i < |rest| && j == i + 1 ==> at[j] == rest[i] + shift
  {
    [0] + seq(|rest|, i requires 0 <= i < |rest| => rest[i] + shift)
  }

  lemma StrungConsAt(first: string, tail: string, parts: seq<string>, separator: string, rest: seq<nat>, i: nat)
    requires parts != [] && |rest| == |parts| && Strung(tail, parts, separator, rest) && i <= |parts|
    ensures Piece(first + separator + tail, [first] + parts, separator, Shifted(rest, |first| + |separator|), i)
  {
    hide Holds, Strung, Shifted;
    var shift := |first| + |separator|;
    ThreeHold(first, separator, tail);
    if i == 0 {
      StrungNext(tail, parts, separator, rest, 0);
    } else {
      assert ([first] + parts)[i] == parts[i - 1];
      StrungNext(tail, parts, separator, rest, i - 1);
      HoldsInside(first + separator + tail, shift, tail, rest[i - 1], parts[i - 1]);
      if i < |parts| { HoldsInside(first + separator + tail, shift, tail, rest[i - 1] + |parts[i - 1]|, separator); }
    }
  }

  lemma StrungCons(first: string, tail: string, parts: seq<string>, separator: string, rest: seq<nat>)
    requires parts != [] && Strung(tail, parts, separator, rest)
    ensures Strung(first + separator + tail, [first] + parts, separator, Shifted(rest, |first| + |separator|))
  {
    hide Holds, Shifted, Piece;
    StrungLength(tail, parts, separator, rest);
    var text, all, at := first + separator + tail, [first] + parts, Shifted(rest, |first| + |separator|);
    forall i | 0 <= i < |all| ensures Piece(text, all, separator, at, i) { StrungConsAt(first, tail, parts, separator, rest, i); }
  }

  lemma {:induction false} JoinedStrung(parts: seq<string>, separator: string) returns (at: seq<nat>)
    ensures Strung(Joined(parts, separator), parts, separator, at)
  {
    hide Strung;
    if parts == [] {
      at := [];
      StrungFew("", separator);
    } else if |parts| == 1 {
      at := [0];
      StrungFew(parts[0], separator);
      assert parts == [parts[0]];
    } else {
      var rest := JoinedStrung(parts[1..], separator);
      StrungCons(parts[0], Joined(parts[1..], separator), parts[1..], separator, rest);
      at := Shifted(rest, |parts[0]| + |separator|);
      assert [parts[0]] + parts[1..] == parts;
    }
  }

  lemma StrungFew(part: string, separator: string)
    ensures Strung("", [], separator, []) && Strung(part, [part], separator, [0])
  {
  }

  /** How many externals come before the p-th result. */
  function Rank<T>(results: seq<FunctionNaming<T>>, p: nat): nat
    requires p <= |results|
  {
    |Externs(results[..p])|
  }

  lemma {:induction false} ExternPlace<T>(results: seq<FunctionNaming<T>>, p: nat)
    requires p < |results| && results[p].isExternal
    ensures Rank(results, p) < |Externs(results)| && Externs(results)[Rank(results, p)] == Declaration(results[p].assignedName)
  {
    var last := |results| - 1;
    if p < last {
      assert results[..last][..p] == results[..p];
      ExternPlace(results[..last], p);
    }
  }

  lemma {:induction false} RanksGrow<T>(results: seq<FunctionNaming<T>>, p: nat, q: nat)
    requires p < q <= |results|
    ensures Rank(results, q) >= Rank(results, p) + if results[p].isExternal then 1 else 0
    decreases q
  {
    assert results[..q][..q - 1] == results[..q - 1];
    if p < q - 1 { RanksGrow(results, p, q - 1); }
  }

  /** The externals are declared in `text` at the positions `ext`, in the order of the results, a line each, between
      `from` and `to`. */
  ghost predicate Declared<T>(text: string, results: seq<FunctionNaming<T>>, ext: map<nat, nat>, from: int, to: int) {
    && (forall p: nat :: p in ext <==> p < |results| && results[p].isExternal)
    && (forall p: nat :: p in ext && p < |results| ==>
          from <= ext[p] && ext[p] + |Declaration(results[p].assignedName)| <= to && Holds(text, ext[p], Declaration(results[p].assignedName)))
    && (forall p: nat, q: nat :: p in ext && q in ext && p < q < |results| ==>
          ext[p] + |Declaration(results[p].assignedName)| < ext[q] && Holds(text, ext[q] - 1, "\n"))
  }

  /** The bodies stand in `text` at the positions `at`, from `from` on, in order, a blank line before each, and the text
      ends with a newline after the last. */
  ghost predicate BodiesAt(text: string, bodies: seq<string>, at: seq<nat>, from: int) {
    && |at| == |bodies|
    && (forall n :: 0 <= n < |bodies| ==> at[n] >= 2 && at[n] - 2 >= from && Holds(text, at[n], bodies[n]) && Holds(text, at[n] - 2, "\n\n"))
    && (forall m, n :: 0 <= m < n < |bodies| && n == m + 1 ==> at[n] == at[m] + |bodies[m]| + 2)
    && (bodies != [] ==> at[|bodies| - 1] + |bodies[|bodies| - 1]| + 1 == |text|)
    && text != "" && Holds(text, |text| - 1, "\n")
  }

  /** The layout of the unit: the header first, then the declarations of the externals, then the bodies. */
  ghost predicate LaidOut<T>(text: string, results: seq<FunctionNaming<T>>, ext: map<nat, nat>, bodies: seq<string>, at: seq<nat>) {
    && Holds(text, 0, UnitHeader())
    && exists split: nat :: |UnitHeader()| <= split && Declared(text, results, ext, |UnitHeader()|, split) && BodiesAt(text, bodies, at, split)
  }

  lemma {:induction false} StrungOrder(text: string, parts: seq<string>, separator: string, at: seq<nat>, i: nat, j: nat)
    requires Strung(text, parts, separator, at) && i < j < |parts|
    ensures at[i] + |parts[i]| + |separator| <= at[j] && Holds(text, at[j] - |separator|, separator)
  {
    if i < j - 1 { StrungOrder(text, parts, separator, at, i, j - 1); }
    StrungNext(text, parts, separator, at, j - 1);
  }

  lemma StrungInside(text: string, start: nat, mid: string, parts: seq<string>, separator: string, at: seq<nat>)
    requires Holds(text, start, mid) && Strung(mid, parts, separator, at)
    ensures forall i :: 0 <= i < |parts| ==> Holds(text, start + at[i], parts[i]) && at[i] + |parts[i]| <= |mid|
    ensures forall i :: 0 < i < |parts| ==> at[i] >= |separator| && Holds(text, start + at[i] - |separator|, separator)
    ensures forall i, j :: 0 <= i < j < |parts| ==> at[i] + |parts[i]| + |separator| <= at[j]
  {
    forall i | 0 <= i < |parts| ensures Holds(text, start + at[i], parts[i]) && at[i] + |parts[i]| <= |mid| {
      StrungNext(mid, parts, separator, at, i);
      HoldsInside(text, start, mid, at[i], parts[i]);
    }
    hide Holds;
    forall i, j | 0 <= i < j < |parts| ensures at[i] + |parts[i]| + |separator| <= at[j] {
      StrungOrder(mid, parts, separator, at, i, j);
    }
    forall i | 0 < i < |parts| ensures at[i] >= |separator| && Holds(text, start + at[i] - |separator|, separator) {
      StrungOrder(mid, parts, separator, at, 0, i);
      HoldsInside(text, start, mid, at[i] - |separator|, separator);
    }
  }

  lemma ExternAt<T>(text: string, results: seq<FunctionNaming<T>>, start: nat, inner: seq<nat>, p: nat)
    requires var externs := Externs(results); |inner| == |externs| && Strung(Joined(externs, "\n"), externs, "\n", inner)
    requires p < |results| && results[p].isExternal && Holds(text, start, Joined(Externs(results), "\n"))
    ensures Rank(results, p) < |inner|
    ensures var at, decl := inner[Rank(results, p)], Declaration(results[p].assignedName);
      Holds(text, start + at, decl) && at + |decl| <= |Joined(Externs(results), "\n")|
  {
    hide Declaration, Holds, Rank, Externs, Joined, Strung;
    var externs := Externs(results);
    ExternPlace(results, p);
    StrungNext(Joined(externs, "\n"), externs, "\n", inner, Rank(results, p));
    HoldsInside(text, start, Joined(externs, "\n"), inner[Rank(results, p)], externs[Rank(results, p)]);
  }

  lemma ExternAfter<T>(text: string, results: seq<FunctionNaming<T>>, start: nat, inner: seq<nat>, p: nat, q: nat)
    requires var externs := Externs(results); |inner| == |externs| && Strung(Joined(externs, "\n"), externs, "\n", inner)
    requires p < q < |results| && results[p].isExternal && results[q].isExternal && Holds(text, start, Joined(Externs(results), "\n"))
    ensures Rank(results, p) < |inner| && Rank(results, q) < |inner|
    ensures var i, j := inner[Rank(results, p)], inner[Rank(results, q)];
      i + |Declaration(results[p].assignedName)| < j && Holds(text, start + j - 1, "\n")
  {
    hide Declaration, Holds, Rank, Externs, Joined, Strung;
    var externs := Externs(results);
    ExternPlace(results, p);
    ExternPlace(results, q);
    RanksGrow(results, p, q);
    StrungOrder(Joined(externs, "\n"), externs, "\n", inner, Rank(results, p), Rank(results, q));
    HoldsInside(text, start, Joined(externs, "\n"), inner[Rank(results, q)] - 1, "\n");
  }

  /** The declarations, where their block starts at `start`. */
  lemma ExternsLaidOut<T>(text: string, results: seq<FunctionNaming<T>>, start: nat) returns (ext: map<nat, nat>)
    requires Externs(results) != [] ==> Holds(text, start, Joined(Externs(results), "\n"))
    ensures Declared(text, results, ext, start, start + |Joined(Externs(results), "\n")|)
  {
    hide Declaration, Holds, Rank, Externs, Joined, Strung;
    var externs := Externs(results);
    var inner := JoinedStrung(externs, "\n");
    StrungLength(Joined(externs, "\n"), externs, "\n", inner);
    forall p: nat | p < |results| && results[p].isExternal ensures Rank(results, p) < |externs| { ExternPlace(results, p); }
    ext := map p: nat | p < |results| && results[p].isExternal :: start + inner[Rank(results, p)];
    forall p: nat | p in ext
      ensures Holds(text, ext[p], Declaration(results[p].assignedName))
      ensures ext[p] + |Declaration(results[p].assignedName)| <= start + |Joined(externs, "\n")|
    {
      ExternPlace(results, p);
      ExternAt(text, results, start, inner, p);
    }
    forall p: nat, q: nat | p in ext && q in ext && p < q < |results|
      ensures ext[p] + |Declaration(results[p].assignedName)| < ext[q] && Holds(text, ext[q] - 1, "\n")
    {
      ExternPlace(results, p);
      ExternAfter(text, results, start, inner, p, q);
    }
  }

  /** The parts after the head of a joined text, and the newline that ends it. */
  lemma TailLaidOut(text: string, head: seq<string>, bodies: seq<string>, pos: seq<nat>)
    requires head != [] && Strung(text, head + bodies, "\n\n", pos)
    ensures BodiesAt(text + "\n", bodies, pos[|head|..], pos[|head| - 1] + |head[|head| - 1]|)
  {
    hide Holds, Strung;
    StrungLength(text, head + bodies, "\n\n", pos);
    ThreeHold("", text, "\n");
    assert "" + text + "\n" == text + "\n";
    var at := pos[|head|..];
    forall n | 0 <= n < |bodies| ensures at[n] == pos[|head| + n] { }
    forall n | 0 <= n < |bodies|
      ensures at[n] >= 2 && at[n] - 2 >= pos[|head| - 1] + |head[|head| - 1]|
      ensures Holds(text + "\n", at[n], bodies[n]) && Holds(text + "\n", at[n] - 2, "\n\n")
    {
      TailBody(text, head, bodies, pos, n);
    }
    forall m, n | 0 <= m < n < |bodies| && n == m + 1 ensures at[n] == at[m] + |bodies[m]| + 2 {
      TailBody(text, head, bodies, pos, n);
    }
    if bodies != [] { StrungNext(text, head + bodies, "\n\n", pos, |head| + |bodies| - 1); }
  }

  lemma TailBody(text: string, head: seq<string>, bodies: seq<string>, pos: seq<nat>, n: nat)
    requires head != [] && Strung(text, head + bodies, "\n\n", pos) && n < |bodies|
    requires |pos| == |head| + |bodies|
    ensures var p := pos[|head| + n];
      && p >= 2 && p - 2 >= pos[|head| - 1] + |head[|head| - 1]|
      && Holds(text + "\n", p, bodies[n]) && Holds(text + "\n", p - 2, "\n\n")
      && (n > 0 ==> p == pos[|head| + n - 1] + |bodies[n - 1]| + 2)
  {
    hide Holds, Strung;
    var i := |head| + n;
    StrungNext(text, head + bodies, "\n\n", pos, i);
    StrungNext(text, head + bodies, "\n\n", pos, i - 1);
    StrungOrder(text, head + bodies, "\n\n", pos, |head| - 1, i);
    HoldsWhole(text, "\n");
    HoldsInside(text + "\n", 0, text, pos[i], bodies[n]);
    HoldsInside(text + "\n", 0, text, pos[i] - 2, "\n\n");
  }

  lemma StrungLength(text: string, parts: seq<string>, separator: string, at: seq<nat>)
    requires Strung(text, parts, separator, at)
    ensures |at| == |parts|
  {
  }

  /** The assembled text is laid out so. */
  lemma AssembleLaidOut<T>(results: seq<FunctionNaming<T>>) returns (ext: map<nat, nat>, at: seq<nat>)
    ensures LaidOut(Assemble(results), results, ext, Bodies(results), at)
  {
    hide UnitHeader, Declared, BodiesAt, Externs, Bodies, Holds;
    var externs, bodies := Externs(results), Bodies(results);
    var block := Joined(externs, "\n");
    var head := [UnitHeader()] + if externs == [] then [] else [block];
    var parts := head + bodies;
    var body := Joined(parts, "\n\n");
    var text := Assemble(results);
    var pos := JoinedStrung(parts, "\n\n");
    HoldsWhole(body, "\n");
    StrungInside(text, 0, body, parts, "\n\n", pos);
    TailLaidOut(body, head, bodies, pos);
    at := pos[|head|..];
    hide Joined, Strung;
    assert parts[0] == UnitHeader() && Holds(text, 0, UnitHeader());
    if externs == [] {
      ext := ExternsLaidOut(text, results, |UnitHeader()|);
      NoExterns(text, results, ext, |UnitHeader()|, |UnitHeader()| + |block|, |UnitHeader()|);
      assert pos[|head| - 1] + |head[|head| - 1]| == |UnitHeader()|;
    } else {
      assert parts[1] == block;
      ext := ExternsLaidOut(text, results, pos[1]);
      DeclaredFrom(text, results, ext, pos[1], pos[1] + |block|, |UnitHeader()|);
    }
  }

  lemma HoldsWhole(text: string, after: string)
    ensures Holds(text + after, 0, text)
  {
  }

  lemma NoExterns<T>(text: string, results: seq<FunctionNaming<T>>, ext: map<nat, nat>, from: int, to: int, to': int)
    requires Declared(text, results, ext, from, to) && Externs(results) == []
    ensures Declared(text, results, ext, from, to')
  {
    forall p: nat | p < |results| ensures !results[p].isExternal { if results[p].isExternal { ExternPlace(results, p); } }
  }

  lemma DeclaredFrom<T>(text: string, results: seq<FunctionNaming<T>>, ext: map<nat, nat>, from: int, to: int, from': int)
    requires Declared(text, results, ext, from, to) && from' <= from
    ensures Declared(text, results, ext, from', to)
  {
  }
}

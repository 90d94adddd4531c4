/** Lists of numbered parts of a transaction that are collected in any order and then sorted. */
module TxParts {

  datatype Part<V> = Part(n: nat, value: V)

  /** How often x occurs. */
  function Times<V(==)>(s: seq<Part<V>>, x: Part<V>): nat {
    if s == [] then 0 else Times(s[..|s| - 1], x) + (if s[|s| - 1] == x then 1 else 0)
  }

  ghost predicate SameParts<V(!new)>(a: seq<Part<V>>, b: seq<Part<V>>) {
    forall x: Part<V> :: Times(a, x) == Times(b, x)
  }

  function InsertPart<V>(s: seq<Part<V>>, x: Part<V>): seq<Part<V>> {
    if s == [] || s[|s| - 1].n <= x.n then s + [x] else InsertPart(s[..|s| - 1], x) + [s[|s| - 1]]
  }

  /** The parts in ascending order of n. */
  function ByNumber<V>(s: seq<Part<V>>): seq<Part<V>> {
    if s == [] then [] else InsertPart(ByNumber(s[..|s| - 1]), s[|s| - 1])
  }

  predicate Numbered<V>(s: seq<Part<V>>) { forall i, j :: 0 <= i < j < |s| ==> s[i].n <= s[j].n }

  predicate DistinctNumbers<V>(s: seq<Part<V>>) { forall i, j :: 0 <= i < j < |s| ==> s[i].n != s[j].n }

  lemma {:induction false} TimesConcat<V>(a: seq<Part<V>>, b: seq<Part<V>>, x: Part<V>)
    ensures Times(a + b, x) == Times(a, x) + Times(b, x)
  {
    if b == [] {
      assert a + b == a;
    } else {
      assert (a + b)[..|a + b| - 1] == a + b[..|b| - 1];
      TimesConcat(a, b[..|b| - 1], x);
    }
  }

  lemma {:induction false} TimesPositive<V>(s: seq<Part<V>>, x: Part<V>)
    ensures x in s <==> Times(s, x) > 0
  {
    if s != [] {
      TimesPositive(s[..|s| - 1], x);
      assert s == s[..|s| - 1] + [s[|s| - 1]];
    }
  }

  lemma {:induction false} InsertPartTimes<V>(s: seq<Part<V>>, x: Part<V>, y: Part<V>)
    ensures Times(InsertPart(s, x), y) == Times(s, y) + (if x == y then 1 else 0)
  {
    TimesConcat(s, [x], y);
    if s != [] && s[|s| - 1].n > x.n {
      InsertPartTimes(s[..|s| - 1], x, y);
      TimesConcat(InsertPart(s[..|s| - 1], x), [s[|s| - 1]], y);
    }
  }

  predicate AtMost<V>(s: seq<Part<V>>, b: nat) { forall i :: 0 <= i < |s| ==> s[i].n <= b }

  lemma {:induction false} InsertPartOrders<V>(s: seq<Part<V>>, x: Part<V>)
    requires Numbered(s)
    ensures Numbered(InsertPart(s, x)) && |InsertPart(s, x)| == |s| + 1
    ensures forall b: nat :: AtMost(s, b) && x.n <= b ==> AtMost(InsertPart(s, x), b)
  {
    if s != [] && s[|s| - 1].n > x.n {
      InsertPartOrders(s[..|s| - 1], x);
      assert AtMost(s[..|s| - 1], s[|s| - 1].n);
      forall b: nat | AtMost(s, b) && x.n <= b ensures AtMost(InsertPart(s, x), b) { assert AtMost(s[..|s| - 1], b); }
    }
  }

  /** Sorting orders by number and keeps every part. */
  lemma {:induction false} ByNumberIs<V(!new)>(s: seq<Part<V>>)
    ensures Numbered(ByNumber(s)) && |ByNumber(s)| == |s| && SameParts(ByNumber(s), s)
  {
    if s != [] {
      var n := |s| - 1;
      ByNumberIs(s[..n]);
      InsertPartOrders(ByNumber(s[..n]), s[n]);
      forall x: Part<V> ensures Times(ByNumber(s), x) == Times(s, x) {
        assert Times(ByNumber(s[..n]), x) == Times(s[..n], x);
        InsertPartTimes(ByNumber(s[..n]), s[n], x);
      }
    }
  }

  function Dropped<T>(s: seq<T>, k: nat): seq<T>
    requires k < |s|
  { s[..k] + s[k + 1..] }

  lemma DroppedTimes<V>(s: seq<Part<V>>, k: nat, x: Part<V>)
    requires k < |s|
    ensures Times(s, x) == Times(Dropped(s, k), x) + (if s[k] == x then 1 else 0)
  {
    TimesConcat(s[..k], s[k + 1..], x);
    assert s == s[..k] + ([s[k]] + s[k + 1..]);
    TimesConcat(s[..k], [s[k]] + s[k + 1..], x);
    TimesConcat([s[k]], s[k + 1..], x);
    assert [s[k]][..0] == [];
  }

  /** The last part of one list can be taken out of any list with the same parts. */
  lemma TakeOut<V(!new)>(a: seq<Part<V>>, b: seq<Part<V>>) returns (k: nat)
    requires SameParts(a, b) && a != []
    ensures k < |b| && b[k] == a[|a| - 1] && SameParts(a[..|a| - 1], Dropped(b, k))
  {
    var x := a[|a| - 1];
    TimesPositive(a, x);
    assert Times(a, x) == Times(b, x);
    TimesPositive(b, x);
    k :| 0 <= k < |b| && b[k] == x;
    forall y: Part<V> ensures Times(a[..|a| - 1], y) == Times(Dropped(b, k), y) {
      assert Times(a, y) == Times(b, y);
      DroppedTimes(b, k, y);
    }
  }

  lemma {:induction false} SamePartsLength<V(!new)>(a: seq<Part<V>>, b: seq<Part<V>>)
    requires SameParts(a, b)
    ensures |a| == |b|
  {
    if a == [] {
      if b != [] { assert Times(a, b[0]) == Times(b, b[0]); TimesPositive(b, b[0]); }
    } else {
      var k := TakeOut(a, b);
      SamePartsLength(a[..|a| - 1], Dropped(b, k));
    }
  }

  /** Two lists in strictly ascending order with the same parts are equal. */
  lemma {:induction false} OrderedUnique<V(!new)>(a: seq<Part<V>>, b: seq<Part<V>>)
    requires SameParts(a, b) && Numbered(a) && Numbered(b) && DistinctNumbers(b)
    ensures a == b
  {
    SamePartsLength(a, b);
    if a != [] {
      var n := |a| - 1;
      var k := TakeOut(a, b);
      assert k == n by {
        assert Times(a, b[n]) == Times(b, b[n]);
        TimesPositive(b, b[n]);
        TimesPositive(a, b[n]);
        var i :| 0 <= i < |a| && a[i] == b[n];
        assert b[n].n <= a[n].n;
      }
      assert Dropped(b, n) == b[..n];
      OrderedUnique(a[..n], b[..n]);
      assert a == a[..n] + [a[n]] && b == b[..n] + [b[n]];
    }
  }

  lemma {:induction false} DistinctKept<V(!new)>(a: seq<Part<V>>, b: seq<Part<V>>)
    requires SameParts(a, b) && DistinctNumbers(a)
    ensures DistinctNumbers(b)
  {
    if a != [] {
      var k := TakeOut(a, b);
      var n, c := |a| - 1, Dropped(b, k);
      DistinctKept(a[..n], c);
      forall i | 0 <= i < |c| ensures c[i].n != b[k].n {
        TimesPositive(c, c[i]);
        assert Times(a[..n], c[i]) == Times(c, c[i]);
        TimesPositive(a[..n], c[i]);
        var m :| 0 <= m < n && a[..n][m] == c[i];
        assert a[m].n != a[n].n;
      }
      forall i, j | 0 <= i < j < |b| ensures b[i].n != b[j].n {
        if i != k && j != k {
          assert c[if i < k then i else i - 1] == b[i] && c[if j < k then j else j - 1] == b[j];
        } else if i != k {
          assert c[i] == b[i];
        } else {
          assert c[j - 1] == b[j];
        }
      }
    } else {
      SamePartsLength(a, b);
    }
  }

  /** Whatever order the parts come in, sorting gives the same list. */
  lemma SortForgetsOrder<V(!new)>(a: seq<Part<V>>, b: seq<Part<V>>)
    requires SameParts(a, b) && DistinctNumbers(b)
    ensures ByNumber(a) == ByNumber(b)
  {
    hide ByNumber, Numbered, DistinctNumbers, Times;
    ByNumberIs(a);
    ByNumberIs(b);
    SameReversed(ByNumber(b), b);
    DistinctKept(b, ByNumber(b));
    SameChain(ByNumber(a), a, b, ByNumber(b));
    OrderedUnique(ByNumber(a), ByNumber(b));
  }

  lemma SameReversed<V(!new)>(a: seq<Part<V>>, b: seq<Part<V>>)
    requires SameParts(a, b)
    ensures SameParts(b, a)
  {}

  lemma SameChain<V(!new)>(a: seq<Part<V>>, b: seq<Part<V>>, c: seq<Part<V>>, d: seq<Part<V>>)
    requires SameParts(a, b) && SameParts(b, c) && SameParts(c, d)
    ensures SameParts(a, d)
  {}
}

/** How getTxs adds up a transaction from messages that arrive on two channels in any order. */
module TxValues {
  import opened Options
  import opened Amounts
  import opened TxParts

  /** What processTxInput sends: the amount of the spent output, and the coinbase script if any. */
  datatype Spend = Spend(valueSat: int, coinbase: string)

  type Vin = Part<Spend>

  /** What processTxOutput sends: the amount as printed. */
  type Vout = Part<string>

  datatype Message = FromInput(vin: Vin) | FromOutput(vout: Vout)

  /** Amounts are the satoshi values that are then shown in coins. */
  datatype InsightTx = InsightTx(vins: seq<Vin>, vouts: seq<Vout>, isCoinBase: bool, valueIn: Option<int>,
                                 valueOut: int, fees: Option<int>)

  datatype Outcome = Failed | Panicked | Done(tx: InsightTx)

  const TWO_63: int := 0x8000_0000_0000_0000
  const TWO_64: int := 0x1_0000_0000_0000_0000

  /** Two's complement wrap-around of int64. */
  function Wrap(x: int): int { (x + TWO_63) % TWO_64 - TWO_63 }

  function Vins(messages: seq<Message>): seq<Vin> {
    if messages == [] then []
    else
      var last := messages[|messages| - 1];
      Vins(messages[..|messages| - 1]) + (if last.FromInput? then [last.vin] else [])
  }

  function Vouts(messages: seq<Message>): seq<Vout> {
    if messages == [] then []
    else
      var last := messages[|messages| - 1];
      Vouts(messages[..|messages| - 1]) + (if last.FromOutput? then [last.vout] else [])
  }

  function SumIn(vins: seq<Vin>): int {
    if vins == [] then 0 else SumIn(vins[..|vins| - 1]) + vins[|vins| - 1].value.valueSat
  }

  function Sats(value: string): int { if ToSatoshi(value).Ok? then ToSatoshi(value).sats else 0 }

  function SumOut(vouts: seq<Vout>): int {
    if vouts == [] then 0 else SumOut(vouts[..|vouts| - 1]) + Sats(vouts[|vouts| - 1].value)
  }

  predicate AllRead(vouts: seq<Vout>) { forall k :: 0 <= k < |vouts| ==> ToSatoshi(vouts[k].value).Ok? }

  predicate CoinBase(vins: seq<Vin>) { |vins| == 1 && vins[0].value.coinbase != "" }

  /** The transaction that these inputs and outputs make up. */
  function Summary(vins: seq<Vin>, vouts: seq<Vout>): InsightTx {
    var sorted := ByNumber(vins);
    var valueIn, valueOut := Wrap(SumIn(vins)), Wrap(SumOut(vouts));
    if CoinBase(sorted) then InsightTx(sorted, ByNumber(vouts), true, None, valueOut, None)
    else InsightTx(sorted, ByNumber(vouts), false, Some(valueIn), valueOut, Some(Wrap(valueIn - valueOut)))
  }

  lemma WrapShift(x: int, k: int)
    ensures Wrap(x + k * TWO_64) == Wrap(x)
  {
    var q := (x + TWO_63) / TWO_64;
    assert x + k * TWO_64 + TWO_63 == (q + k) * TWO_64 + (x + TWO_63) % TWO_64;
  }

  lemma WrapAdd(x: int, y: int)
    ensures Wrap(Wrap(x) + y) == Wrap(x + y)
  {
    var q := (x + TWO_63) / TWO_64;
    assert Wrap(x) + y == (x + y) + (-q) * TWO_64;
    WrapShift(x + y, -q);
  }

  /** Message i is an output whose amount cannot be read, and no earlier one is. */
  predicate FirstUnread(messages: seq<Message>, i: nat)
    requires i < |messages|
  {
    messages[i].FromOutput? && !ToSatoshi(messages[i].vout.value).Ok? && AllRead(Vouts(messages[..i]))
  }

  lemma OneFirst(messages: seq<Message>, i: nat, j: nat)
    requires i < |messages| && j < |messages| && FirstUnread(messages, i) && FirstUnread(messages, j)
    ensures i == j
  {
    hide ToSatoshi, AllRead;
    if i < j {
      assert messages[..j][i] == messages[i];
      StaysUnread(messages[..j], i);
    } else if j < i {
      assert messages[..i][j] == messages[j];
      StaysUnread(messages[..i], j);
    }
  }

  method CollectTx(messages: seq<Message>) returns (outcome: Outcome)
    ensures AllRead(Vouts(messages)) ==> outcome == Done(Summary(Vins(messages), Vouts(messages)))
    ensures forall i :: 0 <= i < |messages| && FirstUnread(messages, i) ==>
              outcome == if ToSatoshi(messages[i].vout.value).Err? then Failed else Panicked
    ensures !AllRead(Vouts(messages)) ==> !outcome.Done?
  {
    hide ToSatoshi, Wrap, Vins, Vouts, SumIn, SumOut;
    var valueIn, valueOut := 0, 0;
    var vins: seq<Vin>, vouts: seq<Vout> := [], [];
    NothingYet();
    for i := 0 to |messages|
      invariant vins == Vins(messages[..i]) && vouts == Vouts(messages[..i]) && AllRead(vouts)
      invariant valueIn == Wrap(SumIn(vins)) && valueOut == Wrap(SumOut(vouts))
    {
      OneMore(messages, i);
      match messages[i] {
        case FromInput(vin) =>
          AddIn(vins, vin);
          vins := vins + [vin];
          valueIn := Wrap(valueIn + vin.value.valueSat);
        case FromOutput(vout) =>
          var sats := ToSatoshi(vout.value);
          if !sats.Ok? {
            StaysUnread(messages, i);
            forall j | 0 <= j < |messages| && FirstUnread(messages, j) ensures j == i { OneFirst(messages, i, j); }
            return if sats.Err? then Failed else Panicked;
          }
          AddOut(vouts, vout);
          vouts := vouts + [vout];
          valueOut := Wrap(valueOut + sats.sats);
      }
    }
    assert messages[..|messages|] == messages;
    forall j | 0 <= j < |messages| && FirstUnread(messages, j) ensures false { StaysUnread(messages, j); }
    var sorted := ByNumber(vins);
    if CoinBase(sorted) {
      return Done(InsightTx(sorted, ByNumber(vouts), true, None, valueOut, None));
    }
    return Done(InsightTx(sorted, ByNumber(vouts), false, Some(valueIn), valueOut, Some(Wrap(valueIn - valueOut))));
  }

  lemma NothingYet()
    ensures Vins([]) == [] && Vouts([]) == [] && Wrap(SumIn([])) == 0 == Wrap(SumOut([]))
  {}

  lemma OneMore(messages: seq<Message>, i: nat)
    requires i < |messages|
    ensures match messages[i]
            case FromInput(vin) =>
              Vins(messages[..i + 1]) == Vins(messages[..i]) + [vin] && Vouts(messages[..i + 1]) == Vouts(messages[..i])
            case FromOutput(vout) =>
              && Vins(messages[..i + 1]) == Vins(messages[..i])
              && Vouts(messages[..i + 1]) == Vouts(messages[..i]) + [vout]
  {
    assert messages[..i + 1][..i] == messages[..i];
  }

  lemma AddIn(vins: seq<Vin>, vin: Vin)
    ensures Wrap(SumIn(vins + [vin])) == Wrap(Wrap(SumIn(vins)) + vin.value.valueSat)
  {
    hide Wrap;
    assert (vins + [vin])[..|vins|] == vins;
    WrapAdd(SumIn(vins), vin.value.valueSat);
  }

  lemma AddOut(vouts: seq<Vout>, vout: Vout)
    ensures Wrap(SumOut(vouts + [vout])) == Wrap(Wrap(SumOut(vouts)) + Sats(vout.value))
  {
    hide Wrap, Sats;
    assert (vouts + [vout])[..|vouts|] == vouts;
    WrapAdd(SumOut(vouts), Sats(vout.value));
  }

  /** An amount that cannot be read stays among the messages. */
  lemma {:induction false} StaysUnread(messages: seq<Message>, i: nat)
    requires i < |messages| && messages[i].FromOutput? && !ToSatoshi(messages[i].vout.value).Ok?
    ensures !AllRead(Vouts(messages))
  {
    hide ToSatoshi;
    var n := |messages| - 1;
    var head := Vouts(messages[..n]);
    if i < n {
      StaysUnread(messages[..n], i);
      var k :| 0 <= k < |head| && !ToSatoshi(head[k].value).Ok?;
      assert Vouts(messages)[k] == head[k];
    } else {
      assert Vouts(messages)[|head|] == messages[i].vout;
    }
  }

  // ----- Independence of the order -----

  lemma {:induction false} SumInDropped(vins: seq<Vin>, k: nat)
    requires k < |vins|
    ensures SumIn(vins) == SumIn(Dropped(vins, k)) + vins[k].value.valueSat
  {
    var n := |vins| - 1;
    if k < n {
      SumInDropped(vins[..n], k);
      assert Dropped(vins, k)[..n - 1] == Dropped(vins[..n], k);
    } else {
      assert Dropped(vins, k) == vins[..n];
    }
  }

  lemma {:induction false} SumInForgetsOrder(a: seq<Vin>, b: seq<Vin>)
    requires SameParts(a, b)
    ensures SumIn(a) == SumIn(b)
  {
    SamePartsLength(a, b);
    if a != [] {
      var k := TakeOut(a, b);
      SumInForgetsOrder(a[..|a| - 1], Dropped(b, k));
      SumInDropped(b, k);
    }
  }

  lemma {:induction false} SumOutDropped(vouts: seq<Vout>, k: nat)
    requires k < |vouts|
    ensures SumOut(vouts) == SumOut(Dropped(vouts, k)) + Sats(vouts[k].value)
  {
    hide Sats;
    var n := |vouts| - 1;
    if k < n {
      SumOutDropped(vouts[..n], k);
      assert Dropped(vouts, k)[..n - 1] == Dropped(vouts[..n], k);
    } else {
      assert Dropped(vouts, k) == vouts[..n];
    }
  }

  lemma {:induction false} SumOutForgetsOrder(a: seq<Vout>, b: seq<Vout>)
    requires SameParts(a, b)
    ensures SumOut(a) == SumOut(b)
  {
    SamePartsLength(a, b);
    if a != [] {
      var k := TakeOut(a, b);
      SumOutForgetsOrder(a[..|a| - 1], Dropped(b, k));
      SumOutDropped(b, k);
    }
  }

  /** Two ways of interleaving the same inputs and outputs give the same transaction. */
  lemma SummaryForgetsOrder(vins: seq<Vin>, vouts: seq<Vout>, inputs: seq<Vin>, outputs: seq<Vout>)
    requires SameParts(vins, inputs) && SameParts(vouts, outputs) && DistinctNumbers(inputs) && DistinctNumbers(outputs)
    ensures Summary(vins, vouts) == Summary(inputs, outputs)
  {
    hide SameParts, DistinctNumbers, SumIn, SumOut, Wrap, ByNumber;
    SortForgetsOrder(vins, inputs);
    SortForgetsOrder(vouts, outputs);
    SumInForgetsOrder(vins, inputs);
    SumOutForgetsOrder(vouts, outputs);
  }

  // ----- Exact totals and fees -----

  function Total(amounts: seq<int>): int {
    if amounts == [] then 0 else Total(amounts[..|amounts| - 1]) + amounts[|amounts| - 1]
  }

  /** The value processTxOutput prints for an amount. */
  ghost predicate Printed(sats: nat, value: string) {
    exists f: real, n: nat :: IsBTC(sats, f) && PrintsAs(f, n) && value == Fixed(n)
  }

  ghost predicate PrintedFrom(amounts: seq<nat>, outputs: seq<Vout>) {
    |outputs| == |amounts| && forall k :: 0 <= k < |amounts| ==>
      Printed(amounts[k], outputs[k].value) && amounts[k] <= LAST_EXACT
  }

  lemma PrintedReads(sats: nat, value: string)
    requires Printed(sats, value) && sats <= LAST_EXACT
    ensures ToSatoshi(value) == Ok(sats)
  {
    hide ToSatoshi, IsBTC, PrintsAs;
    var f: real, n: nat :| IsBTC(sats, f) && PrintsAs(f, n) && value == Fixed(n);
    PrintedRoundTrip(sats, f, n);
  }

  lemma {:induction false} PrintedTotal(amounts: seq<nat>, outputs: seq<Vout>)
    requires PrintedFrom(amounts, outputs)
    ensures AllRead(outputs) && SumOut(outputs) == Total(amounts)
  {
    hide ToSatoshi, Printed;
    if amounts != [] {
      var n := |amounts| - 1;
      PrintedTotal(amounts[..n], outputs[..n]);
      PrintedReads(amounts[n], outputs[n].value);
      assert forall k :: 0 <= k < n ==> outputs[..n][k] == outputs[k];
    }
  }

  lemma {:induction false} ReadForgetsOrder(a: seq<Vout>, b: seq<Vout>)
    requires SameParts(a, b) && AllRead(b)
    ensures AllRead(a)
  {
    hide ToSatoshi;
    forall k | 0 <= k < |a| ensures ToSatoshi(a[k].value).Ok? {
      TimesPositive(a, a[k]);
      assert Times(a, a[k]) == Times(b, a[k]);
      TimesPositive(b, a[k]);
    }
  }

  /** x is an int64. */
  predicate Fits(x: int) { -0x8000_0000_0000_0000 <= x <= 0x7fff_ffff_ffff_ffff }

  /** The inputs spend these amounts. */
  predicate Spends(inputs: seq<Vin>, spent: seq<int>) {
    |inputs| == |spent| && forall k :: 0 <= k < |inputs| ==> inputs[k].value.valueSat == spent[k]
  }

  lemma {:induction false} SpentTotal(inputs: seq<Vin>, spent: seq<int>)
    requires Spends(inputs, spent)
    ensures SumIn(inputs) == Total(spent)
  {
    if inputs != [] { SpentTotal(inputs[..|inputs| - 1], spent[..|spent| - 1]); }
  }

  lemma WrapFits(x: int)
    ensures Fits(Wrap(x)) && (Fits(x) ==> Wrap(x) == x)
  {}

  /** However the messages interleave, the transaction shows the exact sum of its outputs and, unless its
      only input is a coinbase, the exact sum of its inputs and a fee of inputs minus outputs; the parts
      come out in the order of their numbers. */
  lemma ExactForEveryOrder(messages: seq<Message>, inputs: seq<Vin>, spent: seq<int>, amounts: seq<nat>,
                           outputs: seq<Vout>)
    requires SameParts(Vins(messages), inputs) && SameParts(Vouts(messages), outputs)
    requires DistinctNumbers(inputs) && DistinctNumbers(outputs)
    requires Spends(inputs, spent) && PrintedFrom(amounts, outputs)
    requires Fits(Total(spent)) && Fits(Total(amounts)) && Fits(Total(spent) - Total(amounts))
    ensures AllRead(Vouts(messages))
    ensures var tx := Summary(Vins(messages), Vouts(messages));
            var coinbase := |inputs| == 1 && inputs[0].value.coinbase != "";
            && tx.valueOut == Total(amounts)
            && Numbered(tx.vins) && SameParts(tx.vins, inputs) && Numbered(tx.vouts) && SameParts(tx.vouts, outputs)
            && tx.isCoinBase == coinbase
            && tx.valueIn == (if coinbase then None else Some(Total(spent)))
            && tx.fees == if coinbase then None else Some(Total(spent) - Total(amounts))
  {
    hide SameParts, DistinctNumbers, PrintedFrom, Spends, SumIn, SumOut, ByNumber, AllRead, Total, Wrap, Numbered;
    PrintedTotal(amounts, outputs);
    SpentTotal(inputs, spent);
    ReadForgetsOrder(Vouts(messages), outputs);
    SummaryForgetsOrder(Vins(messages), Vouts(messages), inputs, outputs);
    ByNumberIs(inputs);
    ByNumberIs(outputs);
    OneSorted(inputs);
    WrapFits(Total(spent));
    WrapFits(Total(amounts));
    WrapFits(Total(spent) - Total(amounts));
  }

  lemma OneSorted(vins: seq<Vin>)
    ensures CoinBase(ByNumber(vins)) <==> |vins| == 1 && vins[0].value.coinbase != ""
  {
    ByNumberIs(vins);
    if |vins| == 1 { assert vins[..0] == []; }
  }
}

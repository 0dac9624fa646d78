/** `MiningState`: the last reported hashrate, a 300-sample history of hashrates
    (`60 * 5`, five minutes of one report a second) and the "solution just found" flag.
    `decimal` arithmetic is modelled by exact reals. */
module MiningStates {
  import opened Buffer

  const HashrateWindow := 60 * 5

  datatype MiningState = MiningState(hashrates: Ring<real>, hashrate: real, solutionFound: bool)

  predicate Valid(m: MiningState) {
    m.hashrates.Valid() && m.hashrates.capacity == HashrateWindow
  }

  /** A freshly constructed `MiningState`: no samples, hashrate 0, no solution. */
  function Initial(): (m: MiningState)
    ensures Valid(m) && m.hashrates.Size() == 0 && m.hashrate == 0.0 && !m.solutionFound
  {
    MiningState(Empty(HashrateWindow), 0.0, false)
  }

  /** The `Hashrate` setter: remembers the value and appends it to the sample history,
      dropping the oldest sample once 300 are held. */
  function SetHashrate(m: MiningState, value: real): (r: MiningState)
    requires Valid(m)
    ensures Valid(r) && r.hashrate == value && r.solutionFound == m.solutionFound
    ensures r.hashrates.Size() > 0 && r.hashrates.PeekLast() == value
    ensures r.hashrates.items == LastN(m.hashrates.items + [value], HashrateWindow)
  {
    PutKeepsNewest(m.hashrates, value);
    m.(hashrate := value, hashrates := m.hashrates.Put(value))
  }

  /** The `Hashrate` getter's answer together with the state it leaves behind. */
  datatype Reading = Reading(value: real, state: MiningState)

  /** The `Hashrate` getter: with samples held it answers the buffer's `Peek` element
      (the oldest sample) and caches it; with none it answers the cached value. The
      samples themselves are never touched. The property's documentation calls it "the
      last hash rate", but the code answers the oldest sample; the model follows the code
      (see `GetAnswersOldest`). */
  function GetHashrate(m: MiningState): (r: Reading)
    ensures r.state == m.(hashrate := r.value)
    ensures m.hashrates.Size() > 0 ==> r.value == m.hashrates.items[0]
    ensures m.hashrates.Size() == 0 ==> r.value == m.hashrate
  {
    if m.hashrates.Size() > 0 then
      var v := m.hashrates.Peek();
      Reading(v, m.(hashrate := v))
    else Reading(m.hashrate, m)
  }

  /** Reading back after a store: the getter answers the oldest of the last 300 values
      stored, so right after the first store it answers that value. */
  lemma GetAfterSet(m: MiningState, value: real)
    requires Valid(m)
    ensures GetHashrate(SetHashrate(m, value)).value
      == LastN(m.hashrates.items + [value], HashrateWindow)[0]
    ensures m.hashrates.Size() == 0 ==> GetHashrate(SetHashrate(m, value)).value == value
  {
  }

  /** After two different values are stored into a fresh state, the getter answers the
      first one, not the last one stored. */
  lemma GetAnswersOldest(first: real, second: real)
    requires first != second
    ensures GetHashrate(SetHashrate(SetHashrate(Initial(), first), second)).value == first
    ensures GetHashrate(SetHashrate(SetHashrate(Initial(), first), second)).value != second
  {
  }

  /** No sample in the hashrate history is zero. */
  predicate NoZeroSamples(m: MiningState) {
    forall i :: 0 <= i < m.hashrates.Size() ==> m.hashrates.items[i] != 0.0
  }

  /** Storing a non-zero hashrate keeps a history without zeros free of them. */
  lemma SetHashrateKeepsNonZero(m: MiningState, value: real)
    requires Valid(m) && NoZeroSamples(m) && value != 0.0
    ensures NoZeroSamples(SetHashrate(m, value))
  {
    var all := m.hashrates.items + [value];
    var kept := SetHashrate(m, value).hashrates.items;
    assert kept == all[|all| - |kept|..];
    forall i | 0 <= i < |kept| ensures kept[i] != 0.0 {
      var j := |all| - |kept| + i;
      assert kept[i] == all[j];
      if j < |m.hashrates.items| {
        assert all[j] == m.hashrates.items[j];
      }
    }
  }

  function Sum(xs: seq<real>): real {
    if xs == [] then 0.0 else xs[0] + Sum(xs[1..])
  }

  /** Every sample is at least `lo`, so their sum is at least `|xs| * lo`; likewise for `hi`. */
  lemma {:induction false} SumBetween(xs: seq<real>, lo: real, hi: real)
    requires forall i :: 0 <= i < |xs| ==> lo <= xs[i] <= hi
    ensures |xs| as real * lo <= Sum(xs) <= |xs| as real * hi
  {
    if xs != [] {
      SumBetween(xs[1..], lo, hi);
      assert (|xs| - 1) as real * lo + lo == |xs| as real * lo;
      assert (|xs| - 1) as real * hi + hi == |xs| as real * hi;
    }
  }

  /** `AverageHashrate`: the mean of the held samples, or the cached hashrate when none is
      held. The mean lies between the smallest and the largest sample. */
  function AverageHashrate(m: MiningState): (r: real)
    ensures m.hashrates.Size() == 0 ==> r == m.hashrate
    ensures m.hashrates.Size() > 0 ==> r == Mean(m.hashrates.items)
    ensures m.hashrates.Size() > 0 ==>
      m.hashrates.items[MinIndex(m.hashrates.items)] <= r <= m.hashrates.items[MaxIndex(m.hashrates.items)]
  {
    if m.hashrates.items != [] then
      MeanWithin(m.hashrates.items);
      Mean(m.hashrates.items)
    else m.hashrate
  }

  /** The mean of a non-empty sequence of samples: the value that, taken once per
      sample, adds up to their sum. */
  function Mean(xs: seq<real>): (r: real)
    requires xs != []
    ensures r * |xs| as real == Sum(xs)
  {
    QuotientScales(Sum(xs), |xs| as real);
    Sum(xs) / |xs| as real
  }

  /** The mean lies between the smallest and the largest sample. */
  lemma MeanWithin(xs: seq<real>)
    requires xs != []
    ensures xs[MinIndex(xs)] <= Mean(xs) <= xs[MaxIndex(xs)]
  {
    SumBetween(xs, xs[MinIndex(xs)], xs[MaxIndex(xs)]);
    MeanBetween(Sum(xs), |xs| as real, xs[MinIndex(xs)], xs[MaxIndex(xs)]);
  }

  lemma QuotientScales(sum: real, n: real)
    requires n > 0.0
    ensures sum / n * n == sum
  {
  }

  /** Dividing a sum that lies between `n * lo` and `n * hi` by `n` gives a value between
      `lo` and `hi`. */
  lemma MeanBetween(sum: real, n: real, lo: real, hi: real)
    requires n > 0.0 && n * lo <= sum <= n * hi
    ensures lo <= sum / n <= hi
  {
  }

  /** An index of a smallest element. */
  function MinIndex(xs: seq<real>): (k: nat)
    requires xs != []
    ensures k < |xs| && forall i :: 0 <= i < |xs| ==> xs[k] <= xs[i]
    decreases |xs|
  {
    if |xs| == 1 then 0
    else
      var k := MinIndex(xs[1..]) + 1;
      if xs[0] <= xs[k] then 0 else k
  }

  /** An index of a largest element. */
  function MaxIndex(xs: seq<real>): (k: nat)
    requires xs != []
    ensures k < |xs| && forall i :: 0 <= i < |xs| ==> xs[i] <= xs[k]
    decreases |xs|
  {
    if |xs| == 1 then 0
    else
      var k := MaxIndex(xs[1..]) + 1;
      if xs[k] <= xs[0] then 0 else k
  }
}

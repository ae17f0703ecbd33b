/** arduino/library/cactus_io_DHT22.cpp: decoding the pulses of the temperature and humidity sensor. */
module Dht22 {
  import opened Bytes

  const MAX_TIMINGS := 85
  const TIMEOUT := 255
  const READ_INTERVAL := 2000

  // ---------------------------------------------------------------- what a pulse train means

  // The pulses before the first timeout, at most MAX_TIMINGS of them.
  function Usable(pulses: seq<byte>): (q: seq<byte>)
    ensures |q| <= |pulses| && q == pulses[..|q|]
  {
    if pulses == [] || pulses[0] == TIMEOUT then []
    else
      assert [pulses[0]] + pulses[1..][..|Usable(pulses[1..])|] == pulses[..1 + |Usable(pulses[1..])|];
      [pulses[0]] + Usable(pulses[1..])
  }

  lemma UsableFrom(pulses: seq<byte>, i: nat)
    requires i <= |pulses|
    ensures |Usable(pulses[i..])|
            == if i == |pulses| || pulses[i] == TIMEOUT then 0 else 1 + |Usable(pulses[i + 1..])|
  {
    assert i < |pulses| ==> pulses[i..][1..] == pulses[i + 1..];
  }

  // Pulses 4, 6, 8, ... carry one bit each: a one is longer than the threshold.
  function BitCount(n: nat): nat {
    if n <= 4 then 0 else (n - 3) / 2
  }

  function Bit(pulses: seq<byte>, threshold: byte, j: nat): nat
    requires 4 + 2 * j < |pulses|
  {
    if pulses[4 + 2 * j] > threshold then 1 else 0
  }

  // The first k bits from bit `from` on, most significant first.
  function Packed(pulses: seq<byte>, threshold: byte, from: nat, k: nat): nat
    requires k > 0 ==> 4 + 2 * (from + k - 1) < |pulses|
  {
    if k == 0 then 0 else 2 * Packed(pulses, threshold, from, k - 1) + Bit(pulses, threshold, from + k - 1)
  }

  lemma {:induction false} PackedBound(pulses: seq<byte>, threshold: byte, from: nat, k: nat)
    requires k > 0 ==> 4 + 2 * (from + k - 1) < |pulses|
    ensures Packed(pulses, threshold, from, k) < Pow2(k)
  {
    if k > 0 {
      PackedBound(pulses, threshold, from, k - 1);
    }
  }

  // Packing is big-endian: the i-th of k bits is digit k - 1 - i of the result.
  lemma {:induction false} PackedDigits(pulses: seq<byte>, threshold: byte, from: nat, k: nat, i: nat)
    requires i < k && 4 + 2 * (from + k - 1) < |pulses|
    ensures Digit(Packed(pulses, threshold, from, k), k - 1 - i) == if pulses[4 + 2 * (from + i)] > threshold then 1 else 0
  {
    if i < k - 1 {
      PackedDigits(pulses, threshold, from, k - 1, i);
      assert Packed(pulses, threshold, from, k) / 2 == Packed(pulses, threshold, from, k - 1);
    }
  }

  // Bits of byte b among the first j.
  function BitsOf(b: nat, j: nat): nat {
    if j <= 8 * b then 0 else Least(8, j - 8 * b)
  }

  lemma ByteBound(pulses: seq<byte>, threshold: byte, from: nat, k: nat)
    requires k <= 8 && (k > 0 ==> 4 + 2 * (from + k - 1) < |pulses|)
    ensures Packed(pulses, threshold, from, k) < 0x100
    ensures k < 8 ==> Packed(pulses, threshold, from, k) < 0x80
  {
    PackedBound(pulses, threshold, from, k);
    Pow2Of8();
    Pow2Small(k);
  }

  lemma Pow2Small(k: nat)
    requires k <= 8
    ensures Pow2(k) <= 0x100 && (k < 8 ==> Pow2(k) <= 0x80)
  {
    assert Pow2(3) == 8;
    assert Pow2(5) == 32;
    assert Pow2(7) == 128;
  }

  // Byte b of what the first j bits leave in the data bytes.
  function DataByte(pulses: seq<byte>, threshold: byte, b: nat, j: nat): nat
    requires b < 5 && (j > 0 ==> 4 + 2 * (j - 1) < |pulses|)
  {
    Packed(pulses, threshold, 8 * b, BitsOf(b, j))
  }

  // Byte b of a complete sample.
  function SampleByte(pulses: seq<byte>, threshold: byte, b: nat): nat
    requires b < 5 && |pulses| == MAX_TIMINGS
  {
    Packed(pulses, threshold, 8 * b, 8)
  }

  // At least 40 bits, and a checksum equal to the sum of the first four bytes.
  predicate GoodSample(pulses: seq<byte>, threshold: byte)
    requires |pulses| == MAX_TIMINGS
  {
    BitCount(|Usable(pulses)|) >= 40
    && SampleByte(pulses, threshold, 4)
       == (SampleByte(pulses, threshold, 0) + SampleByte(pulses, threshold, 1) + SampleByte(pulses, threshold, 2) + SampleByte(pulses, threshold, 3)) % 0x100
  }

  // The pulses that count are those before the first timeout.
  lemma {:induction false} UsableExactly(pulses: seq<byte>)
    ensures forall i :: 0 <= i < |Usable(pulses)| ==> pulses[i] != 255
    ensures |Usable(pulses)| == |pulses| || pulses[|Usable(pulses)|] == 255
  {
    if pulses != [] && pulses[0] != TIMEOUT {
      UsableExactly(pulses[1..]);
      forall i | 0 <= i < |Usable(pulses)| ensures pulses[i] != 255 {
        assert i > 0 ==> pulses[i] == pulses[1..][i - 1];
      }
    }
  }

  // Bit k is there when pulse 4 + 2 * k is.
  lemma BitCounts(n: nat, k: nat)
    ensures k < BitCount(n) <==> 4 + 2 * k < n
  {
  }

  // The sum of two bytes high and low as one number of 16 bits.
  function Tenths(high: int, low: int): int {
    0x100 * high + low
  }

  // A sample is good exactly when bit 39 came before any timeout and the four bytes add up to the fifth.
  lemma GoodSampleExactly(pulses: seq<byte>, threshold: byte)
    requires |pulses| == 85
    ensures GoodSample(pulses, threshold) <==>
              (forall i :: 0 <= i <= 82 ==> pulses[i] != 255)
              && (Packed(pulses, threshold, 0, 8) + Packed(pulses, threshold, 8, 8) + Packed(pulses, threshold, 16, 8)
                  + Packed(pulses, threshold, 24, 8)) % 256 == Packed(pulses, threshold, 32, 8)
  {
    UsableExactly(pulses);
    BitCounts(|Usable(pulses)|, 39);
    hide Usable, Packed;
  }

  // ---------------------------------------------------------------- sequences of calls

  // One call of read(): the clock read twice, and what the pin would show.
  datatype Call = Call(now: uint32, later: uint32, pulses: seq<byte>)

  // What read() remembers; `samples` is history: the pulses of every attempt.
  datatype Memory = Memory(first: bool, last: uint32, samples: seq<seq<byte>>)

  const FRESH := Memory(true, 0, [])

  // A call is answered from the last attempt: never the first time, and after the clock has wrapped
  // the last attempt counts as made at time 0.
  predicate Caches(m: Memory, call: Call) {
    !m.first && call.now - (if call.now < m.last then 0 else m.last) < READ_INTERVAL
  }

  function AfterCall(m: Memory, call: Call): Memory {
    if Caches(m, call) then m.(last := if call.now < m.last then 0 else m.last)
    else Memory(false, call.later, m.samples + [call.pulses])
  }

  predicate Answer(m: Memory, call: Call, threshold: byte)
    requires |call.pulses| == MAX_TIMINGS
  {
    Caches(m, call) || GoodSample(call.pulses, threshold)
  }

  predicate AreSamples(samples: seq<seq<byte>>) {
    forall i :: 0 <= i < |samples| ==> |samples[i]| == MAX_TIMINGS
  }

  predicate AreCalls(calls: seq<Call>) {
    forall i :: 0 <= i < |calls| ==> |calls[i].pulses| == MAX_TIMINGS
  }

  // The last attempt took a complete sample with a matching checksum, which the data bytes then hold.
  predicate Backed(m: Memory, threshold: byte)
    requires AreSamples(m.samples)
  {
    m.samples != [] && GoodSample(m.samples[|m.samples| - 1], threshold)
  }

  function AfterCalls(calls: seq<Call>): (m: Memory)
    requires AreCalls(calls)
    ensures AreSamples(m.samples)
  {
    if calls == [] then FRESH else AfterCall(AfterCalls(calls[..|calls| - 1]), calls[|calls| - 1])
  }

  // Call i of a sequence took a sample of its own.
  predicate Samples(calls: seq<Call>, i: nat)
    requires AreCalls(calls) && i < |calls|
  {
    !Caches(AfterCalls(calls[..i]), calls[i])
  }

  predicate Answered(calls: seq<Call>, i: nat, threshold: byte)
    requires AreCalls(calls) && i < |calls|
  {
    Answer(AfterCalls(calls[..i]), calls[i], threshold)
  }

  // After any sequence of calls: let i be the last one that took a sample.  Every later call answered
  // true, but the data is a checked sample if and only if call i itself answered true.
  lemma {:induction false} AnswersAreBacked(calls: seq<Call>, threshold: byte) returns (i: nat)
    requires AreCalls(calls) && calls != []
    ensures i < |calls| && Samples(calls, i)
    ensures forall j :: i < j < |calls| ==> !Samples(calls, j) && Answered(calls, j, threshold)
    ensures Backed(AfterCalls(calls), threshold) <==> Answered(calls, i, threshold)
  {
    hide GoodSample;
    var n := |calls| - 1;
    var front := calls[..n];
    if Samples(calls, n) {
      i := n;
    } else {
      i := AnswersAreBacked(front, threshold);
      SameInFront(calls, n, i, threshold);
      hide Samples, Answered;
      forall j | i < j < |calls| ensures !Samples(calls, j) && Answered(calls, j, threshold) {
        if j < n {
          SameInFront(calls, n, j, threshold);
        } else {
          CachedIsTrue(calls, n, threshold);
        }
      }
    }
  }

  lemma SameInFront(calls: seq<Call>, n: nat, j: nat, threshold: byte)
    requires AreCalls(calls) && j < n <= |calls|
    ensures Samples(calls[..n], j) == Samples(calls, j) && Answered(calls[..n], j, threshold) == Answered(calls, j, threshold)
  {
    assert calls[..n][..j] == calls[..j];
  }

  lemma CachedIsTrue(calls: seq<Call>, j: nat, threshold: byte)
    requires AreCalls(calls) && j < |calls| && !Samples(calls, j)
    ensures Answered(calls, j, threshold)
  {
  }

  // The answer true misleads exactly when it comes from the last attempt and that attempt failed.
  lemma MisleadsExactly(calls: seq<Call>, threshold: byte) returns (i: nat)
    requires AreCalls(calls) && calls != []
    ensures i < |calls| && Samples(calls, i) && forall j :: i < j < |calls| ==> !Samples(calls, j)
    ensures Answered(calls, |calls| - 1, threshold) && !Backed(AfterCalls(calls), threshold)
            <==> i < |calls| - 1 && !Answered(calls, i, threshold)
  {
    i := AnswersAreBacked(calls, threshold);
  }

  // ---------------------------------------------------------------- the sensor object

  datatype Reading = NotANumber | Value(x: real)

  class Sensor {
    const threshold: byte
    const data: array<byte>
    var firstReading: bool
    var lastReadTime: uint32
    var humidity: Reading
    var temperature: Reading
    // the pulses of every attempt
    ghost var samples: seq<seq<byte>>

    // An object of static storage starts with zeros.
    constructor (threshold: byte)
      ensures Valid() && fresh(data) && Remembered() == FRESH && this.threshold == threshold
      ensures humidity == temperature == Value(0.0)
    {
      this.threshold := threshold;
      data := new byte[6](_ => 0);
      firstReading, lastReadTime, samples := true, 0, [];
      humidity, temperature := Value(0.0), Value(0.0);
    }

    ghost function Remembered(): Memory
      reads this
    {
      Memory(firstReading, lastReadTime, samples)
    }

    // The five data bytes hold the first j bits, most significant bit first.
    ghost predicate Holds(pulses: seq<byte>, j: nat)
      reads data
    {
      && data.Length == 6 && j <= 41 && (j > 0 ==> 4 + 2 * (j - 1) < |pulses|)
      && forall b :: 0 <= b < 5 ==> data[b] == DataByte(pulses, threshold, b, j)
    }

    // The data bytes are what the last attempt left, complete or not.
    ghost predicate Valid()
      reads this, data
    {
      && data.Length == 6 && AreSamples(samples) && (firstReading <==> samples == [])
      && (samples != [] ==> var last := samples[|samples| - 1]; Holds(last, BitCount(|Usable(last)|)))
    }

    lemma BackedData()
      requires Valid() && Backed(Remembered(), threshold)
      ensures forall b :: 0 <= b < 5 ==> data[b] == SampleByte(samples[|samples| - 1], threshold, b)
      ensures data[4] == (data[0] as int + data[1] as int + data[2] as int + data[3] as int) % 0x100
    {
      var last := samples[|samples| - 1];
      forall b | 0 <= b < 5 ensures data[b] == SampleByte(last, threshold, b) {
        assert BitsOf(b, BitCount(|Usable(last)|)) == 8;
      }
    }

    // data[j / 8] <<= 1, and |= 1 for a long pulse; the sixth byte takes a 41st bit.
    method StoreBit(ghost pulses: seq<byte>, j: nat, pulse: byte)
      requires Holds(pulses, j) && j < 41 && 4 + 2 * j < |pulses| && pulse == pulses[4 + 2 * j]
      modifies data
      ensures Holds(pulses, j + 1)
    {
      var b := j / 8;
      var shifted := 2 * (data[b] as int) % 0x100;
      if b < 5 {
        ByteBound(pulses, threshold, 8 * b, BitsOf(b, j));
        assert 8 * b + BitsOf(b, j) == j && BitsOf(b, j + 1) == BitsOf(b, j) + 1;
      }
      assert forall i :: 0 <= i < 5 && i != b ==> BitsOf(i, j + 1) == BitsOf(i, j);
      data[b] := if pulse > threshold then shifted + 1 else shifted;
    }

    // The sampling loop of read(): stops at the first timeout.
    method ReadBits(pulses: seq<byte>) returns (j: nat)
      requires data.Length == 6 && (forall b :: 0 <= b < 5 ==> data[b] == 0) && |pulses| == MAX_TIMINGS
      modifies data
      ensures j == BitCount(|Usable(pulses)|) <= 41
      ensures Holds(pulses, j)
    {
      j := 0;
      var i := 0;
      assert Holds(pulses, 0) && pulses[0..] == pulses;
      hide Holds, Usable;
      while i < MAX_TIMINGS
        invariant 0 <= i <= MAX_TIMINGS
        invariant j == BitCount(i) && Holds(pulses, j)
        invariant |Usable(pulses)| == i + |Usable(pulses[i..])|
      {
        UsableFrom(pulses, i);
        if pulses[i] == TIMEOUT {
          break;
        }
        if i >= 4 && i % 2 == 0 {
          StoreBit(pulses, j, pulses[i]);
          j := j + 1;
        }
        i := i + 1;
      }
      UsableFrom(pulses, i);
    }

    // The check after the sampling loop.
    method Accepts(j: nat, ghost pulses: seq<byte>) returns (ok: bool)
      requires |pulses| == MAX_TIMINGS && j == BitCount(|Usable(pulses)|) && Holds(pulses, j)
      ensures ok <==> GoodSample(pulses, threshold)
    {
      ok := j >= 40 && data[4] == (data[0] as int + data[1] as int + data[2] as int + data[3] as int) % 0x100;
      assert j >= 40 ==> forall b :: 0 <= b < 5 ==> BitsOf(b, j) == 8;
    }

    // read(): within two seconds of the last attempt it returns true without sampling; otherwise it
    // succeeds exactly on a good sample.
    method Read(now: uint32, later: uint32, pulses: seq<byte>) returns (ok: bool)
      requires Valid() && |pulses| == MAX_TIMINGS
      modifies data, this`firstReading, this`lastReadTime, this`samples
      ensures Valid()
      ensures Remembered() == AfterCall(old(Remembered()), Call(now, later, pulses))
      ensures ok <==> Answer(old(Remembered()), Call(now, later, pulses), threshold)
      ensures Caches(old(Remembered()), Call(now, later, pulses)) ==> data[..] == old(data[..])
      ensures Caches(old(Remembered()), Call(now, later, pulses)) <==>
                !old(firstReading) && now < 2000 + (if now < old(lastReadTime) then 0 else old(lastReadTime))
      ensures !Caches(old(Remembered()), Call(now, later, pulses)) ==>
                lastReadTime == later && !firstReading && samples == old(samples) + [pulses]
    {
      hide Usable, BitCount, DataByte, GoodSample;
      if now < lastReadTime {
        lastReadTime := 0;
      }
      if !firstReading && now - lastReadTime < READ_INTERVAL {
        return true;
      }
      firstReading := false;
      lastReadTime := later;
      data[0], data[1], data[2], data[3], data[4] := 0, 0, 0, 0, 0;
      var j := ReadBits(pulses);
      ok := Accepts(j, pulses);
      samples := samples + [pulses];
    }

    method ReadHumidity(now: uint32, later: uint32, pulses: seq<byte>)
      requires Valid() && |pulses| == MAX_TIMINGS
      modifies data, this`firstReading, this`lastReadTime, this`samples, this`humidity
      ensures Valid()
      ensures Remembered() == AfterCall(old(Remembered()), Call(now, later, pulses))
      ensures humidity == if Answer(old(Remembered()), Call(now, later, pulses), threshold)
                          then Value(Humidity(data[0], data[1])) else NotANumber
    {
      hide Holds, Answer;
      var ok := Read(now, later, pulses);
      if ok {
        var h := data[0] as real;
        h := h * 256.0;
        h := h + data[1] as real;
        humidity := Value(h / 10.0);
      } else {
        humidity := NotANumber;
      }
    }

    method ReadTemperature(now: uint32, later: uint32, pulses: seq<byte>)
      requires Valid() && |pulses| == MAX_TIMINGS
      modifies data, this`firstReading, this`lastReadTime, this`samples, this`temperature
      ensures Valid()
      ensures Remembered() == AfterCall(old(Remembered()), Call(now, later, pulses))
      ensures temperature == if Answer(old(Remembered()), Call(now, later, pulses), threshold)
                             then Value(Temperature(data[2], data[3])) else NotANumber
    {
      hide Holds, Answer;
      var ok := Read(now, later, pulses);
      if ok {
        var t := (data[2] as int % 0x80) as real;
        t := t * 256.0;
        t := t + data[3] as real;
        t := t / 10.0;
        if data[2] >= 0x80 {
          t := t * -1.0;
        }
        temperature := Value(t);
      } else {
        temperature := NotANumber;
      }
    }

    // How the wrapper uses the sensor: humidity first, temperature at once after it.
    // When the first call samples and the second is answered from it, the temperature is always a number,
    // and it is the temperature of a checked sample if and only if the humidity is a number too.
    method ReadBoth(h: Call, t: Call)
      requires Valid() && |h.pulses| == |t.pulses| == MAX_TIMINGS
      modifies data, this`firstReading, this`lastReadTime, this`samples, this`humidity, this`temperature
      ensures Valid() && Remembered() == AfterCall(AfterCall(old(Remembered()), h), t)
      ensures humidity.Value? <==> Answer(old(Remembered()), h, threshold)
      ensures temperature == if Answer(AfterCall(old(Remembered()), h), t, threshold)
                             then Value(Temperature(data[2], data[3])) else NotANumber
      ensures !Caches(old(Remembered()), h) && Caches(AfterCall(old(Remembered()), h), t) ==>
                temperature.Value? && (humidity.Value? <==> Backed(Remembered(), threshold))
      ensures !Caches(old(Remembered()), h) && Caches(AfterCall(old(Remembered()), h), t) && humidity.Value? ==>
                humidity == Value(Humidity(SampleByte(h.pulses, threshold, 0), SampleByte(h.pulses, threshold, 1)))
                && temperature == Value(Temperature(SampleByte(h.pulses, threshold, 2), SampleByte(h.pulses, threshold, 3)))
    {
      hide Holds, GoodSample, SampleByte;
      ReadHumidity(h.now, h.later, h.pulses);
      if humidity.Value? && !Caches(old(Remembered()), h) {
        BackedData();
      }
      ReadTemperature(t.now, t.later, t.pulses);
      if Backed(Remembered(), threshold) {
        BackedData();
      }
    }
  }

  // ---------------------------------------------------------------- the wrapper

  const SENSOR_INTERVAL := 3000

  // One call of TemperatureHumidityHandler::loop: the clock compared and stored, and the two readings.
  datatype Round = Round(now: uint32, later: uint32, h: Call, t: Call)

  predicate AreRounds(rounds: seq<Round>) {
    forall i :: 0 <= i < |rounds| ==> |rounds[i].h.pulses| == |rounds[i].t.pulses| == MAX_TIMINGS
  }

  class Thermometer {
    const sensor: Sensor
    var timer: uint32
    var humidity: Reading
    var temperature: Reading

    constructor (threshold: byte, now: uint32)
      ensures Valid() && fresh(sensor) && fresh(sensor.data) && !Stuck() && sensor.threshold == threshold
      ensures sensor.Remembered() == FRESH && timer == now
    {
      sensor := new Sensor(threshold);
      timer := now;
      humidity, temperature := Value(0.0), Value(0.0);
    }

    // The guard of loop(): a reading of the sensor is not a number.
    predicate Stuck()
      reads this, sensor
    {
      sensor.humidity.NotANumber? || sensor.temperature.NotANumber?
    }

    // As long as it is not stuck, the data of the sensor is that of a checked sample.
    ghost predicate Valid()
      reads this, sensor, sensor.data
    {
      sensor.Valid() && (!Stuck() && sensor.samples != [] ==> Backed(sensor.Remembered(), sensor.threshold))
    }

    // The sensor is read when its time has come, and only if the guard finds numbers.  A temperature is
    // then that of a checked sample if and only if the humidity is a number too or the second call sampled.
    method Loop(round: Round)
      requires Valid() && |round.h.pulses| == |round.t.pulses| == MAX_TIMINGS
      modifies this`timer, this`humidity, this`temperature
      modifies sensor.data, sensor`firstReading, sensor`lastReadTime, sensor`samples, sensor`humidity, sensor`temperature
      ensures Valid()
      ensures old(Stuck()) || (round.now - old(timer)) % 0x1_0000_0000 < 3000 ==>
                sensor.Remembered() == old(sensor.Remembered()) && sensor.data[..] == old(sensor.data[..])
                && sensor.humidity == old(sensor.humidity) && sensor.temperature == old(sensor.temperature)
                && humidity == old(humidity) && temperature == old(temperature)
      ensures !old(Stuck()) && (round.now - old(timer)) % 0x1_0000_0000 >= 3000 ==>
                humidity == sensor.humidity && temperature == sensor.temperature
                && sensor.Remembered() == AfterCall(AfterCall(old(sensor.Remembered()), round.h), round.t)
                && (humidity.Value? <==> Answer(old(sensor.Remembered()), round.h, sensor.threshold))
                && (temperature.Value? <==> Answer(AfterCall(old(sensor.Remembered()), round.h), round.t, sensor.threshold))
                && (Stuck() <==> humidity.NotANumber? || temperature.NotANumber?)
                && (temperature.Value? ==>
                      temperature == Value(Temperature(sensor.data[2], sensor.data[3]))
                      && (Backed(sensor.Remembered(), sensor.threshold)
                          <==> humidity.Value? || !Caches(AfterCall(old(sensor.Remembered()), round.h), round.t)))
      ensures timer == if (round.now - old(timer)) % 0x1_0000_0000 >= 3000 then round.later else old(timer)
    {
      hide GoodSample;
      if Elapsed(round.now, timer) >= SENSOR_INTERVAL {
        timer := round.later;
        if sensor.humidity.NotANumber? || sensor.temperature.NotANumber? {
          return;
        }
        sensor.ReadBoth(round.h, round.t);
        humidity := sensor.humidity;
        temperature := sensor.temperature;
      }
    }

    // After one failed reading the sensor is never read again, and both values are reported for ever; after
    // any rounds without one the data is that of a checked sample.
    method Loops(rounds: seq<Round>)
      requires Valid() && AreRounds(rounds)
      modifies this`timer, this`humidity, this`temperature
      modifies sensor.data, sensor`firstReading, sensor`lastReadTime, sensor`samples, sensor`humidity, sensor`temperature
      ensures Valid()
      ensures old(Stuck()) ==>
                Stuck() && sensor.samples == old(sensor.samples) && humidity == old(humidity) && temperature == old(temperature)
    {
      for i := 0 to |rounds|
        invariant Valid()
        invariant old(Stuck()) ==>
                    Stuck() && sensor.samples == old(sensor.samples) && humidity == old(humidity) && temperature == old(temperature)
      {
        Loop(rounds[i]);
      }
    }
  }

  // A sensor that is unplugged for its first reading times out at once: the humidity is not a number and
  // the temperature is 0 degrees, whatever the sensor would show in all later calls.
  method Unplugged(threshold: byte, rounds: seq<Round>) returns (humidity: Reading, temperature: Reading)
    requires AreRounds(rounds)
    ensures humidity == NotANumber && temperature == Value(0.0)
  {
    var thermometer := new Thermometer(threshold, 0);
    var pulses := seq<byte>(MAX_TIMINGS, _ => TIMEOUT);
    assert Usable(pulses) == [];
    var h, t := Call(5000, 5000, pulses), Call(5001, 5001, pulses);
    assert AfterCall(FRESH, h) == Memory(false, 5000, [pulses]) && Caches(AfterCall(FRESH, h), t);
    assert Elapsed(5000, 0) >= SENSOR_INTERVAL;
    thermometer.Loop(Round(5000, 5000, h, t));
    assert thermometer.Stuck() && thermometer.humidity == NotANumber && thermometer.temperature.Value?;
    assert thermometer.sensor.samples[0] == pulses && thermometer.sensor.Holds(pulses, 0);
    assert thermometer.sensor.data[2] == DataByte(pulses, threshold, 2, 0) == 0;
    assert thermometer.sensor.data[3] == DataByte(pulses, threshold, 3, 0) == 0;
    thermometer.Loops(rounds);
    humidity, temperature := thermometer.humidity, thermometer.temperature;
  }

  // Tenths of a percent in two bytes; tenths of a degree in 15 bits after a sign bit.
  function Humidity(high: nat, low: nat): real {
    (256 * high + low) as real / 10.0
  }

  function Temperature(high: nat, low: nat): real {
    var tenths := 256 * high + low;
    if tenths < 0x8000 then tenths as real / 10.0 else (0x8000 - tenths) as real / 10.0
  }

  // Tenths; the highest bit of a temperature is its sign.
  lemma ReadingsExactly(high: byte, low: byte)
    ensures Humidity(high, low) * 10.0 == Tenths(high, low) as real
    ensures high < 0x80 ==> Temperature(high, low) * 10.0 == Tenths(high, low) as real
    ensures high >= 0x80 ==> Temperature(high, low) == 0.0 - Temperature(high - 0x80, low)
  {
  }
}

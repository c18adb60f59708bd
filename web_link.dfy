/**
 * The configuration page's link to the macropad (public/scripts/main.js):
 * the connection fields of `config`, the module globals `lastBleWriteTime`,
 * `bleWritePromise` and `statusUpdatesPausedUntil`, and the operations that
 * send to the device, tear the link down and poll for the light level.
 *
 * Time is the page's `Date.now()`, a field advanced by waits and by the
 * duration of each write. `await` is sequential. The promise chain on
 * `bleWritePromise` is the FIFO queue `bleQueue`: a send appends its job
 * and then runs queued jobs, oldest first, until its own has run.
 */
module WebLink {
  import opened Common

  const BLE_MIN_WRITE_INTERVAL_MS: nat := 800
  const BLE_CHUNK: nat := 20
  const BLE_SLICE_PAUSE_MS: nat := 30
  const CONNECT_POLL_PAUSE_MS: nat := 10000
  /** The wait `connectToESP32` makes over BLE before its first send. */
  const BLE_SETTLE_MS: nat := 800
  const BACKLIGHT_DEBOUNCE_MS: nat := 400
  const BACKLIGHT_POLL_PAUSE_MS: nat := 8000

  /** `JSON.stringify({ type: 'get_light' })` */
  const GET_LIGHT: string := "{\"type\":\"get_light\"}"

  datatype Kind = Usb | Bluetooth

  /** The Web Serial port as far as writing is concerned; a writer left locked makes `getWriter` throw. */
  datatype SerialPort = SerialPort(writable: bool, writerLocked: bool)

  /** `config.bluetoothDevice` and whether its GATT server is connected. */
  datatype Gatt = NoDevice | Device(gattConnected: bool)

  /** What the device does with one write request: accepts it after `latency` ms, or rejects it. */
  datatype WriteResult = Written(latency: nat) | Rejected(name: string, message: string)

  /** One write request as the device received it. */
  datatype Attempt = Attempt(kind: Kind, at: nat, bytes: seq<byte>, accepted: bool)

  /** How an attempt to open the link ended, as the browser APIs report it. */
  datatype Opening =
    | UsbOpened(port: SerialPort)
    | BleReady                 // device chosen, GATT connected, characteristic found
    | BleGattOnly              // GATT connected, then the service or characteristic step threw
    | Refused                  // the chooser was cancelled or the port/device could not be opened

  // ------------------------------------------------------- BLE slicing

  /**
   * The writes of one BLE job: the whole payload when it fits in 20 bytes,
   * otherwise 20-byte slices at offsets 0, 20, 40, ...
   */
  function BleSlices(encoded: seq<byte>): (r: seq<seq<byte>>)
    ensures |encoded| <= BLE_CHUNK ==> r == [encoded]
    ensures forall k :: 0 <= k < |r| ==> |r[k]| <= BLE_CHUNK
  {
    if |encoded| <= BLE_CHUNK then [encoded] else Chunks(encoded, BLE_CHUNK)
  }

  /** The slices put back together are the payload; slice k is bytes [20k, min(20k+20, n)). */
  lemma BleSlicesShape(encoded: seq<byte>, k: nat)
    ensures Flatten(BleSlices(encoded)) == encoded
    ensures |encoded| > 0 ==> |BleSlices(encoded)| == (|encoded| + BLE_CHUNK - 1) / BLE_CHUNK
    ensures k < |BleSlices(encoded)| ==>
      BleSlices(encoded)[k] == encoded[BLE_CHUNK * k .. Min(BLE_CHUNK * k + BLE_CHUNK, |encoded|)]
  {
    if |encoded| <= BLE_CHUNK {
      assert Flatten([encoded]) == encoded + Flatten([]);
    } else {
      ChunksFlatten(encoded, BLE_CHUNK);
      ChunksCount(encoded, BLE_CHUNK);
      if k < |BleSlices(encoded)| {
        ChunkAt(encoded, BLE_CHUNK, k);
      }
    }
  }

  /**
   * The slice that starts at offset i = 20k of a payload longer than 20
   * bytes: it exists while i is inside the payload, it is bytes
   * [i, min(i + 20, n)), and it is the last exactly when i + 20 reaches n.
   */
  lemma BleSliceAt(encoded: seq<byte>, k: nat, i: nat)
    requires |encoded| > BLE_CHUNK && i == BLE_CHUNK * k
    ensures (i < |encoded|) == (k < |BleSlices(encoded)|)
    ensures i < |encoded| ==> BleSlices(encoded)[k] == encoded[i..Min(i + BLE_CHUNK, |encoded|)]
    ensures i < |encoded| ==> (i + BLE_CHUNK < |encoded|) == (k + 1 < |BleSlices(encoded)|)
  {
    BleSlicesShape(encoded, k);
    var n := |encoded|;
    var q := (n + BLE_CHUNK - 1) / BLE_CHUNK;
    assert BLE_CHUNK * q <= n + BLE_CHUNK - 1 < BLE_CHUNK * q + BLE_CHUNK;
    if k < q {
      assert BLE_CHUNK * k <= BLE_CHUNK * (q - 1);
    } else {
      assert BLE_CHUNK * k >= BLE_CHUNK * q;
    }
    if k + 1 < q {
      assert BLE_CHUNK * (k + 1) <= BLE_CHUNK * (q - 1);
    } else {
      assert BLE_CHUNK * (k + 1) >= BLE_CHUNK * q;
    }
  }

  /** The payload of a send: the data with a line feed, UTF-8 encoded. */
  function Payload(data: string): (r: seq<byte>)
    ensures |r| >= 1 && r[|r| - 1] == 10
  {
    Utf8Append(data, "\n");
    Utf8(data + "\n")
  }

  /** The outcome of running one job's writes. */
  datatype JobRun = JobRun(attempts: seq<Attempt>, finish: nat, failure: Option<WriteResult>)

  /**
   * Writes `slices[k..]` one after another from time `t`, the n-th request
   * answered by `device(n)`: 30 ms pause after every accepted slice but the
   * last, and the first rejection ends the job.
   */
  function RunSlices(device: nat -> WriteResult, n: nat, t: nat, slices: seq<seq<byte>>, k: nat): (r: JobRun)
    requires k <= |slices|
    ensures |r.attempts| <= |slices| - k && r.finish >= t
    decreases |slices| - k
  {
    if k == |slices| then JobRun([], t, None)
    else match device(n)
      case Rejected(_, _) => JobRun([Attempt(Bluetooth, t, slices[k], false)], t, Some(device(n)))
      case Written(latency) =>
        var next := t + latency + (if k + 1 < |slices| then BLE_SLICE_PAUSE_MS else 0);
        var rest := RunSlices(device, n + 1, next, slices, k + 1);
        JobRun([Attempt(Bluetooth, t, slices[k], true)] + rest.attempts, rest.finish, rest.failure)
  }

  /** The write log `after` is `before` followed by the writes of two jobs, in order. */
  ghost predicate TwoJobsLogged(after: seq<Attempt>, before: seq<Attempt>, first: seq<Attempt>, second: seq<Attempt>)
  {
    after == before + first + second
  }

  /** Two jobs run back to back log the first job's writes and then the second's. */
  lemma JobsCompose(before: seq<Attempt>, mid: seq<Attempt>, after: seq<Attempt>, first: JobRun, second: seq<Attempt>)
    requires mid == before + first.attempts
    requires first.failure.None? ==> after == mid + second
    ensures first.failure.None? ==> TwoJobsLogged(after, before, first.attempts, second)
  {
  }

  function BytesOf(attempts: seq<Attempt>): seq<byte>
  {
    if |attempts| == 0 then [] else attempts[0].bytes + BytesOf(attempts[1..])
  }

  /**
   * A job without a rejection writes every slice, in order and accepted;
   * a job with one writes a prefix of the slices and stops at the rejected one.
   * Every write starts at or after the job's start.
   */
  lemma RunSlicesWrites(device: nat -> WriteResult, n: nat, t: nat, slices: seq<seq<byte>>, k: nat)
    requires k <= |slices|
    ensures var r := RunSlices(device, n, t, slices, k);
      (r.failure.None? ==> |r.attempts| == |slices| - k && BytesOf(r.attempts) == Flatten(slices[k..]) &&
                           forall i :: 0 <= i < |r.attempts| ==> r.attempts[i].accepted) &&
      (r.failure.Some? ==> |r.attempts| >= 1 && !r.attempts[|r.attempts| - 1].accepted &&
                           r.failure.value.Rejected? &&
                           forall i :: 0 <= i < |r.attempts| ==> r.attempts[i].bytes == slices[k + i]) &&
      (forall i :: 0 <= i < |r.attempts| ==> r.attempts[i].at >= t && r.attempts[i].kind == Bluetooth)
  {
    RunSlicesComplete(device, n, t, slices, k);
    RunSlicesStops(device, n, t, slices, k);
    RunSlicesBytes(device, n, t, slices, k);
    RunSlicesTimes(device, n, t, slices, k);
  }

  /** A run the device never rejects writes every slice from k on, accepted, and nothing else. */
  lemma {:induction false} RunSlicesComplete(device: nat -> WriteResult, n: nat, t: nat, slices: seq<seq<byte>>, k: nat)
    requires k <= |slices|
    ensures var r := RunSlices(device, n, t, slices, k);
      r.failure.None? ==> |r.attempts| == |slices| - k && BytesOf(r.attempts) == Flatten(slices[k..]) &&
                          forall i :: 0 <= i < |r.attempts| ==> r.attempts[i].accepted
    decreases |slices| - k
  {
    if k < |slices| && device(n).Written? {
      var next := t + device(n).latency + (if k + 1 < |slices| then BLE_SLICE_PAUSE_MS else 0);
      var rest := RunSlices(device, n + 1, next, slices, k + 1);
      var r := RunSlices(device, n, t, slices, k);
      assert r.attempts == [Attempt(Bluetooth, t, slices[k], true)] + rest.attempts && r.failure == rest.failure;
      RunSlicesComplete(device, n + 1, next, slices, k + 1);
      if r.failure.None? {
        assert r.attempts[1..] == rest.attempts;
        assert slices[k..] == [slices[k]] + slices[k + 1..];
        forall i | 0 <= i < |r.attempts|
          ensures r.attempts[i].accepted
        {
          if i > 0 {
            assert r.attempts[i] == rest.attempts[i - 1];
          }
        }
      }
    }
  }

  /** A run the device rejects ends with the rejected slice. */
  lemma {:induction false} RunSlicesStops(device: nat -> WriteResult, n: nat, t: nat, slices: seq<seq<byte>>, k: nat)
    requires k <= |slices|
    ensures var r := RunSlices(device, n, t, slices, k);
      r.failure.Some? ==> |r.attempts| >= 1 && !r.attempts[|r.attempts| - 1].accepted && r.failure.value.Rejected?
    decreases |slices| - k
  {
    if k < |slices| && device(n).Written? {
      var next := t + device(n).latency + (if k + 1 < |slices| then BLE_SLICE_PAUSE_MS else 0);
      var rest := RunSlices(device, n + 1, next, slices, k + 1);
      var r := RunSlices(device, n, t, slices, k);
      assert r.attempts == [Attempt(Bluetooth, t, slices[k], true)] + rest.attempts && r.failure == rest.failure;
      RunSlicesStops(device, n + 1, next, slices, k + 1);
      if r.failure.Some? {
        assert r.attempts[|r.attempts| - 1] == rest.attempts[|rest.attempts| - 1];
      }
    }
  }

  /** The i-th write of a run carries the run's i-th slice. */
  lemma {:induction false} RunSlicesBytes(device: nat -> WriteResult, n: nat, t: nat, slices: seq<seq<byte>>, k: nat)
    requires k <= |slices|
    ensures var r := RunSlices(device, n, t, slices, k);
      forall i :: 0 <= i < |r.attempts| ==> r.attempts[i].bytes == slices[k + i]
    decreases |slices| - k
  {
    if k < |slices| && device(n).Written? {
      var next := t + device(n).latency + (if k + 1 < |slices| then BLE_SLICE_PAUSE_MS else 0);
      var rest := RunSlices(device, n + 1, next, slices, k + 1);
      var r := RunSlices(device, n, t, slices, k);
      assert r.attempts == [Attempt(Bluetooth, t, slices[k], true)] + rest.attempts;
      assert r.attempts[0].bytes == slices[k];
      RunSlicesBytes(device, n + 1, next, slices, k + 1);
      assert var q := RunSlices(device, n + 1, next, slices, k + 1);
        forall j :: 0 <= j < |q.attempts| ==> q.attempts[j].bytes == slices[k + 1 + j];
      forall i | 0 <= i < |r.attempts|
        ensures r.attempts[i].bytes == slices[k + i]
      {
        if i > 0 {
          assert r.attempts[i] == rest.attempts[i - 1];
          assert rest.attempts[i - 1].bytes == slices[k + 1 + (i - 1)];
        }
      }
    }
  }

  /** Every write of a run starts at or after the run's start, over Bluetooth. */
  lemma {:induction false} RunSlicesTimes(device: nat -> WriteResult, n: nat, t: nat, slices: seq<seq<byte>>, k: nat)
    requires k <= |slices|
    ensures var r := RunSlices(device, n, t, slices, k);
      forall i :: 0 <= i < |r.attempts| ==> r.attempts[i].at >= t && r.attempts[i].kind == Bluetooth
    decreases |slices| - k
  {
    if k < |slices| && device(n).Written? {
      var next := t + device(n).latency + (if k + 1 < |slices| then BLE_SLICE_PAUSE_MS else 0);
      var rest := RunSlices(device, n + 1, next, slices, k + 1);
      var r := RunSlices(device, n, t, slices, k);
      assert r.attempts == [Attempt(Bluetooth, t, slices[k], true)] + rest.attempts;
      RunSlicesTimes(device, n + 1, next, slices, k + 1);
      assert var q := RunSlices(device, n + 1, next, slices, k + 1);
        forall j :: 0 <= j < |q.attempts| ==> q.attempts[j].at >= next && q.attempts[j].kind == Bluetooth;
      forall i | 0 <= i < |r.attempts|
        ensures r.attempts[i].at >= t && r.attempts[i].kind == Bluetooth
      {
        if i > 0 {
          assert r.attempts[i] == rest.attempts[i - 1];
          assert rest.attempts[i - 1].at >= next >= t;
        } else {
          assert r.attempts[0] == Attempt(Bluetooth, t, slices[k], true);
        }
      }
    }
  }

  /** Consecutive writes of a job are the first one's duration plus 30 ms apart. */
  lemma {:induction false} RunSlicesSpacing(device: nat -> WriteResult, n: nat, t: nat, slices: seq<seq<byte>>, k: nat, i: nat)
    requires k <= |slices|
    requires i + 1 < |RunSlices(device, n, t, slices, k).attempts|
    ensures var a := RunSlices(device, n, t, slices, k).attempts;
      device(n + i).Written? && a[i + 1].at == a[i].at + device(n + i).latency + BLE_SLICE_PAUSE_MS
    decreases |slices| - k
  {
    var next := t + device(n).latency + (if k + 1 < |slices| then BLE_SLICE_PAUSE_MS else 0);
    if i > 0 {
      RunSlicesSpacing(device, n + 1, next, slices, k + 1, i - 1);
    }
  }

  /**
   * The body of a BLE job once the link is up, against a device that
   * answers the n-th request with `device(n)`, starting with request `n0` at
   * time `t0`: one write when the payload fits in 20 bytes, otherwise a write
   * per 20-byte slice with a 30 ms pause after each slice but the last. The
   * first rejection ends it.
   */
  method BleWrites(device: nat -> WriteResult, n0: nat, t0: nat, encoded: seq<byte>)
    returns (log: seq<Attempt>, t: nat, failure: Option<WriteResult>)
    ensures JobRun(log, t, failure) == RunSlices(device, n0, t0, BleSlices(encoded), 0)
  {
    ghost var slices := BleSlices(encoded);
    ghost var run := RunSlices(device, n0, t0, slices, 0);
    log, t, failure := [], t0, None;
    if |encoded| <= BLE_CHUNK {
      log, t, failure := WriteWhole(device, n0, t0, encoded);
      return;
    }
    var i := 0;
    ghost var k := 0;
    ghost var rest := run;
    BleSliceAt(encoded, k, i);
    while i < |encoded|
      invariant i == BLE_CHUNK * k && k <= |slices|
      invariant i < |encoded| <==> k < |slices|
      invariant failure.None?
      invariant rest == RunSlices(device, n0 + |log|, t, slices, k)
      invariant run.attempts == log + rest.attempts && run.finish == rest.finish && run.failure == rest.failure
      decreases |encoded| - i
    {
      BleSliceAt(encoded, k, i);
      var piece := encoded[i..Min(i + BLE_CHUNK, |encoded|)];
      var a, next, f := WriteSlice(device, n0 + |log|, t, slices, k, piece, i + BLE_CHUNK < |encoded|);
      if f.Some? {
        log := log + [a];
        failure := f;
        return;
      }
      ghost var later := RunSlices(device, n0 + |log| + 1, next, slices, k + 1);
      assert rest.attempts == [a] + later.attempts;
      AppendAssoc(log, [a], later.attempts);
      assert run.attempts == (log + [a]) + later.attempts;
      log := log + [a];
      t := next;
      i, k, rest := i + BLE_CHUNK, k + 1, later;
      BleSliceAt(encoded, k, i);
    }
    assert rest.attempts == [];
    assert log + [] == log;
  }

  /** The single write of a payload that fits in one slice. */
  method WriteWhole(device: nat -> WriteResult, n0: nat, t0: nat, encoded: seq<byte>)
    returns (log: seq<Attempt>, t: nat, failure: Option<WriteResult>)
    requires |encoded| <= BLE_CHUNK
    ensures JobRun(log, t, failure) == RunSlices(device, n0, t0, BleSlices(encoded), 0)
  {
    var r := device(n0);
    log, t, failure := [Attempt(Bluetooth, t0, encoded, r.Written?)], t0, None;
    if r.Written? {
      t := t + r.latency;
    } else {
      failure := Some(r);
    }
  }

  /**
   * One slice write of a multi-slice job: the attempt, the time after it
   * (with the 30 ms pause unless it was the last slice), and the rejection
   * that ends the job, if any.
   */
  method WriteSlice(device: nat -> WriteResult, n: nat, t: nat, ghost slices: seq<seq<byte>>, ghost k: nat, piece: seq<byte>, more: bool)
    returns (a: Attempt, next: nat, failure: Option<WriteResult>)
    requires k < |slices| && piece == slices[k] && more == (k + 1 < |slices|)
    ensures var rest := RunSlices(device, n, t, slices, k);
      if failure.Some? then rest == JobRun([a], t, failure)
      else var later := RunSlices(device, n + 1, next, slices, k + 1);
        rest == JobRun([a] + later.attempts, later.finish, later.failure)
  {
    var r := device(n);
    a := Attempt(Bluetooth, t, piece, r.Written?);
    next := t;
    failure := None;
    if r.Rejected? {
      failure := Some(r);
      return;
    }
    next := t + r.latency;
    if more {
      next := next + BLE_SLICE_PAUSE_MS;
    }
  }

  /** The error text the page inspects: `(e.message || '') + (e.name || '')`. */
  function ErrorText(e: WriteResult): string
  {
    if e.Rejected? then e.message + e.name else ""
  }

  predicate OccursAt(s: string, part: string, i: int)
  {
    0 <= i <= |s| - |part| && s[i..i + |part|] == part
  }

  /** `s.includes(part)` */
  predicate Contains(s: string, part: string)
  {
    exists i :: 0 <= i <= |s| - |part| && OccursAt(s, part, i)
  }

  /**
   * The page's "lost link" test. Its second alternative contains the first,
   * so the test is whether the text mentions "disconnected".
   */
  predicate IsLinkLost(e: WriteResult)
  {
    Contains(ErrorText(e), "disconnected") || Contains(ErrorText(e), "GATT Server is disconnected")
  }

  lemma LinkLostMeansDisconnected(e: WriteResult)
    ensures IsLinkLost(e) <==> Contains(ErrorText(e), "disconnected")
  {
    var s := ErrorText(e);
    if Contains(s, "GATT Server is disconnected") {
      var g := "GATT Server is disconnected";
      assert |g| == 27 && g[15..] == "disconnected";
      var i :| 0 <= i <= |s| - |g| && OccursAt(s, g, i);
      assert s[i..i + 27] == g;
      assert s[i + 15..i + 27] == s[i..i + 27][15..27];
      assert OccursAt(s, "disconnected", i + 15);
    }
  }

  /** The light-level poll request reaches the device as one 21-byte USB write. */
  lemma GetLightPayload()
    ensures |Payload(GET_LIGHT)| == 21
  {
    assert IsAscii(GET_LIGHT + "\n");
    Utf8Ascii(GET_LIGHT + "\n");
  }

  // ----------------------------------------------------------- the link

  class DeviceLink {
    /** `Date.now()` */
    var clock: nat
    /** The device's answer to the n-th write request it receives. */
    const device: nat -> WriteResult

    var connected: bool
    var connectionType: Option<Kind>
    var serialPort: Option<SerialPort>
    var gatt: Gatt
    var hasCharacteristic: bool
    var lastBleWriteTime: nat
    /** Jobs chained on `bleWritePromise` that have not run yet: their payload text, line feed included. */
    var bleQueue: seq<string>
    var statusUpdatesPausedUntil: nat
    /** `statusUpdateInterval !== null` */
    var pollTimer: bool
    /** `config.backlight.envBrightness` */
    var envBrightness: bool
    /** `config.lastLightLevel`, `undefined` being None */
    var lastLightLevel: Option<Json>
    /** Every write request the device received, in order. */
    var attempts: seq<Attempt>
    /** Every message handed to `sendDataToESP32`, in order. */
    var requests: seq<string>

    ghost predicate Valid()
      reads this
    {
      lastBleWriteTime <= clock && (connected ==> connectionType.Some?) && (hasCharacteristic ==> gatt.Device?)
    }

    /** The page after loading: nothing connected, the globals at their initial values. */
    constructor(now: nat, device: nat -> WriteResult, envBrightness: bool)
      ensures Valid()
      ensures clock == now && this.device == device && this.envBrightness == envBrightness
      ensures !connected && connectionType.None? && serialPort.None? && gatt.NoDevice? && !hasCharacteristic
      ensures lastBleWriteTime == 0 && bleQueue == [] && statusUpdatesPausedUntil == 0 && !pollTimer
      ensures lastLightLevel.None? && attempts == [] && requests == []
    {
      clock := now;
      this.device := device;
      connected := false;
      connectionType := None;
      serialPort := None;
      gatt := NoDevice;
      hasCharacteristic := false;
      lastBleWriteTime := 0;
      bleQueue := [];
      statusUpdatesPausedUntil := 0;
      pollTimer := false;
      this.envBrightness := envBrightness;
      lastLightLevel := None;
      attempts := [];
      requests := [];
    }

    /** `await new Promise(r => setTimeout(r, ms))` */
    method Sleep(ms: nat)
      requires Valid()
      modifies this
      ensures Valid() && clock == old(clock) + ms
      ensures connected == old(connected) && connectionType == old(connectionType) && attempts == old(attempts)
      ensures serialPort == old(serialPort) && gatt == old(gatt) && hasCharacteristic == old(hasCharacteristic)
      ensures lastBleWriteTime == old(lastBleWriteTime) && bleQueue == old(bleQueue) && pollTimer == old(pollTimer)
      ensures statusUpdatesPausedUntil == old(statusUpdatesPausedUntil) && envBrightness == old(envBrightness)
      ensures lastLightLevel == old(lastLightLevel)
      ensures requests == old(requests)
    {
      clock := clock + ms;
    }

    /** `pauseStatusUpdatesUntil(t)`: the pause only ever moves later. */
    method PauseStatusUpdatesUntil(t: nat)
      requires Valid()
      modifies this
      ensures Valid()
      ensures statusUpdatesPausedUntil == if old(statusUpdatesPausedUntil) < t then t else old(statusUpdatesPausedUntil)
      ensures statusUpdatesPausedUntil >= old(statusUpdatesPausedUntil) && statusUpdatesPausedUntil >= t
      ensures clock == old(clock) && connected == old(connected) && connectionType == old(connectionType)
      ensures attempts == old(attempts) && serialPort == old(serialPort) && gatt == old(gatt)
      ensures hasCharacteristic == old(hasCharacteristic) && lastBleWriteTime == old(lastBleWriteTime)
      ensures bleQueue == old(bleQueue) && pollTimer == old(pollTimer) && envBrightness == old(envBrightness)
      ensures lastLightLevel == old(lastLightLevel) && requests == old(requests)
    {
      if statusUpdatesPausedUntil < t {
        statusUpdatesPausedUntil := t;
      }
    }

    /** `startStatusUpdates`: (re)arms the 10-second poll timer. */
    method StartStatusUpdates()
      requires Valid()
      modifies this
      ensures Valid() && pollTimer
      ensures clock == old(clock) && connected == old(connected) && connectionType == old(connectionType)
      ensures attempts == old(attempts) && serialPort == old(serialPort) && gatt == old(gatt)
      ensures hasCharacteristic == old(hasCharacteristic) && lastBleWriteTime == old(lastBleWriteTime)
      ensures bleQueue == old(bleQueue) && envBrightness == old(envBrightness)
      ensures statusUpdatesPausedUntil == old(statusUpdatesPausedUntil) && lastLightLevel == old(lastLightLevel)
      ensures requests == old(requests)
    {
      pollTimer := true;
    }

    /** The state `disconnectFromESP32` leaves, whatever it started from. */
    ghost predicate IsReset()
      reads this
    {
      !connected && connectionType.None? && serialPort.None? && gatt.NoDevice? && !hasCharacteristic &&
      lastLightLevel.None? && bleQueue == [] && !pollTimer
    }

    /**
     * `disconnectFromESP32`: closes the serial port and the GATT connection
     * (their errors are caught) and clears the connection fields, the BLE
     * queue and the poll timer. Time, the write log, the throttle stamp and
     * the poll pause are untouched.
     */
    method Disconnect()
      requires Valid()
      modifies this
      ensures Valid() && IsReset()
      ensures clock == old(clock) && attempts == old(attempts) && lastBleWriteTime == old(lastBleWriteTime)
      ensures statusUpdatesPausedUntil == old(statusUpdatesPausedUntil) && envBrightness == old(envBrightness)
      ensures requests == old(requests)
    {
      if serialPort.Some? {
        // reader.cancel(), writer.close() and port.close() may each throw; all are caught.
        serialPort := None;
      }
      if gatt.Device? {
        hasCharacteristic := false;
        gatt := NoDevice;
      }
      connected := false;
      connectionType := None;
      lastLightLevel := None;
      bleQueue := [];
      if pollTimer {
        pollTimer := false;
      }
    }

    /** The `gattserverdisconnected` listener: the device dropped the connection. */
    method GattServerDisconnected()
      requires Valid()
      modifies this
      ensures Valid()
      ensures !connected && connectionType.None? && gatt.NoDevice? && !hasCharacteristic && lastLightLevel.None?
      ensures bleQueue == [] && !pollTimer && serialPort == old(serialPort)
      ensures clock == old(clock) && attempts == old(attempts) && lastBleWriteTime == old(lastBleWriteTime)
      ensures statusUpdatesPausedUntil == old(statusUpdatesPausedUntil) && envBrightness == old(envBrightness)
      ensures requests == old(requests)
    {
      connected := false;
      connectionType := None;
      lastLightLevel := None;
      gatt := NoDevice;
      hasCharacteristic := false;
      bleQueue := [];
      pollTimer := false;
    }

    /**
     * USB half of `sendDataToESP32`: one write of the whole payload when the
     * port is writable. A rejected write skips `releaseLock`, which leaves the
     * writer locked, so every later `getWriter` throws and is only logged.
     */
    method SendUsb(data: string)
      requires Valid()
      modifies this
      ensures Valid()
      ensures var go := old(serialPort).Some? && old(serialPort).value.writable && !old(serialPort).value.writerLocked;
        var r := device(old(|attempts|));
        (!go ==> attempts == old(attempts) && clock == old(clock) && serialPort == old(serialPort)) &&
        (go ==> attempts == old(attempts) + [Attempt(Usb, old(clock), Payload(data), r.Written?)] &&
                clock == old(clock) + (if r.Written? then r.latency else 0) &&
                serialPort == Some(old(serialPort).value.(writerLocked := r.Rejected?)))
      ensures connected == old(connected) && connectionType == old(connectionType) && gatt == old(gatt)
      ensures hasCharacteristic == old(hasCharacteristic) && lastBleWriteTime == old(lastBleWriteTime)
      ensures bleQueue == old(bleQueue) && pollTimer == old(pollTimer) && envBrightness == old(envBrightness)
      ensures statusUpdatesPausedUntil == old(statusUpdatesPausedUntil) && lastLightLevel == old(lastLightLevel)
      ensures requests == old(requests)
    {
      if serialPort.Some? && serialPort.value.writable {
        if !serialPort.value.writerLocked {
          var encoded := Payload(data);
          var r := device(|attempts|);
          attempts := attempts + [Attempt(Usb, clock, encoded, r.Written?)];
          match r
          case Written(latency) =>
            clock := clock + latency;
          case Rejected(_, _) =>
            serialPort := Some(serialPort.value.(writerLocked := true));
        }
      }
    }

    /** A job finding these conditions writes something; otherwise it returns at once. */
    predicate JobCanRun()
      reads this
    {
      connected && gatt == Device(true)
    }

    /**
     * Call-site half of the BLE send: nothing without a characteristic and a
     * connected GATT server; otherwise wait until 800 ms have passed since
     * `lastBleWriteTime` and chain the job.
     */
    method BeginBleSend(data: string) returns (queued: bool)
      requires Valid()
      modifies this
      ensures Valid()
      ensures queued <==> old(hasCharacteristic) && old(gatt) == Device(true)
      ensures queued ==> bleQueue == old(bleQueue) + [data + "\n"]
      ensures queued ==> clock == (if old(clock) - old(lastBleWriteTime) < BLE_MIN_WRITE_INTERVAL_MS
                                   then old(lastBleWriteTime) + BLE_MIN_WRITE_INTERVAL_MS else old(clock))
      ensures !queued ==> bleQueue == old(bleQueue) && clock == old(clock)
      ensures attempts == old(attempts) && connected == old(connected) && connectionType == old(connectionType)
      ensures serialPort == old(serialPort) && gatt == old(gatt) && hasCharacteristic == old(hasCharacteristic)
      ensures lastBleWriteTime == old(lastBleWriteTime) && pollTimer == old(pollTimer)
      ensures statusUpdatesPausedUntil == old(statusUpdatesPausedUntil) && envBrightness == old(envBrightness)
      ensures lastLightLevel == old(lastLightLevel) && requests == old(requests)
    {
      if !hasCharacteristic || gatt != Device(true) {
        return false;
      }
      var elapsed := clock - lastBleWriteTime;
      if elapsed < BLE_MIN_WRITE_INTERVAL_MS {
        Sleep(BLE_MIN_WRITE_INTERVAL_MS - elapsed);
      }
      bleQueue := bleQueue + [data + "\n"];
      queued := true;
    }

    /** The writes of a BLE job once the link is up, logged and timed. */
    method WriteBleSlices(encoded: seq<byte>) returns (failure: Option<WriteResult>)
      requires Valid()
      modifies this
      ensures Valid()
      ensures var run := RunSlices(device, old(|attempts|), old(clock), BleSlices(encoded), 0);
        attempts == old(attempts) + run.attempts && clock == run.finish && failure == run.failure
      ensures connected == old(connected) && connectionType == old(connectionType) && serialPort == old(serialPort)
      ensures gatt == old(gatt) && hasCharacteristic == old(hasCharacteristic) && envBrightness == old(envBrightness)
      ensures lastBleWriteTime == old(lastBleWriteTime) && bleQueue == old(bleQueue) && pollTimer == old(pollTimer)
      ensures statusUpdatesPausedUntil == old(statusUpdatesPausedUntil) && lastLightLevel == old(lastLightLevel)
      ensures requests == old(requests)
    {
      var log, t;
      log, t, failure := BleWrites(device, |attempts|, clock, encoded);
      attempts := attempts + log;
      clock := t;
    }

    /**
     * Runs the oldest chained job. A job that finds the link down writes
     * nothing. Otherwise it writes its slices; `lastBleWriteTime` moves on
     * only if every slice was accepted, and a rejection that mentions
     * "disconnected" marks the link down and stops the poll timer.
     */
    method RunNextBleJob()
      requires Valid()
      modifies this
      ensures Valid()
      ensures bleQueue == if |old(bleQueue)| == 0 then [] else old(bleQueue)[1..]
      ensures |old(bleQueue)| == 0 || !old(JobCanRun()) ==>
        attempts == old(attempts) && clock == old(clock) && connected == old(connected) &&
        lastBleWriteTime == old(lastBleWriteTime) && pollTimer == old(pollTimer)
      ensures |old(bleQueue)| > 0 && old(JobCanRun()) ==>
        var run := RunSlices(device, old(|attempts|), old(clock), BleSlices(Utf8(old(bleQueue)[0])), 0);
        attempts == old(attempts) + run.attempts && clock == run.finish &&
        (run.failure.None? ==> lastBleWriteTime == run.finish && connected && pollTimer == old(pollTimer)) &&
        (run.failure.Some? ==> (lastBleWriteTime == old(lastBleWriteTime) &&
                                connected == !IsLinkLost(run.failure.value) &&
                                pollTimer == (old(pollTimer) && !IsLinkLost(run.failure.value))))
      ensures connectionType == old(connectionType) && serialPort == old(serialPort) && gatt == old(gatt)
      ensures hasCharacteristic == old(hasCharacteristic) && envBrightness == old(envBrightness)
      ensures statusUpdatesPausedUntil == old(statusUpdatesPausedUntil) && lastLightLevel == old(lastLightLevel)
      ensures requests == old(requests)
    {
      if |bleQueue| == 0 {
        return;
      }
      var dataStr := bleQueue[0];
      bleQueue := bleQueue[1..];
      if !connected || gatt != Device(true) {
        return;
      }
      var failure := WriteBleSlices(Utf8(dataStr));
      if failure.None? {
        lastBleWriteTime := clock;
      } else if connected {
        if IsLinkLost(failure.value) {
          connected := false;
          if pollTimer {
            pollTimer := false;
          }
        }
      }
    }

    /** When a BLE job begun now would start writing: 800 ms after the last successful job at the earliest. */
    function BleStart(): nat
      reads this
    {
      if clock - lastBleWriteTime < BLE_MIN_WRITE_INTERVAL_MS then lastBleWriteTime + BLE_MIN_WRITE_INTERVAL_MS else clock
    }

    /** The link is idle and up for BLE: a send now runs its own job at once. */
    predicate BleSendRuns()
      reads this
    {
      connectionType == Some(Bluetooth) && hasCharacteristic && gatt == Device(true) && connected && bleQueue == []
    }

    /** Runs the queued BLE jobs in order until none is left. */
    method DrainBleQueue()
      requires Valid()
      modifies this
      ensures Valid() && bleQueue == []
      ensures old(bleQueue) == [] ==>
        attempts == old(attempts) && clock == old(clock) && connected == old(connected) &&
        lastBleWriteTime == old(lastBleWriteTime) && pollTimer == old(pollTimer)
      ensures connected ==> old(connected)
      ensures pollTimer ==> old(pollTimer)
      ensures connectionType == old(connectionType) && gatt == old(gatt) && hasCharacteristic == old(hasCharacteristic)
      ensures serialPort == old(serialPort) && lastLightLevel == old(lastLightLevel)
      ensures statusUpdatesPausedUntil == old(statusUpdatesPausedUntil) && envBrightness == old(envBrightness)
      ensures requests == old(requests)
    {
      if |bleQueue| == 0 {
        return;
      }
      while |bleQueue| > 0
        invariant Valid()
        invariant connected ==> old(connected)
        invariant pollTimer ==> old(pollTimer)
        invariant connectionType == old(connectionType) && gatt == old(gatt) && hasCharacteristic == old(hasCharacteristic)
        invariant serialPort == old(serialPort) && lastLightLevel == old(lastLightLevel)
        invariant statusUpdatesPausedUntil == old(statusUpdatesPausedUntil) && envBrightness == old(envBrightness)
        invariant requests == old(requests)
        decreases |bleQueue|
      {
        RunNextBleJob();
      }
    }

    /** A job started at `BleStart()` writes nothing earlier than 800 ms after the last successful job. */
    lemma ThrottledRun(n: nat, start: nat, last: nat, slices: seq<seq<byte>>)
      requires start >= last + BLE_MIN_WRITE_INTERVAL_MS
      ensures forall i :: 0 <= i < |RunSlices(device, n, start, slices, 0).attempts| ==>
        RunSlices(device, n, start, slices, 0).attempts[i].at >= last + BLE_MIN_WRITE_INTERVAL_MS
    {
      RunSlicesWrites(device, n, start, slices, 0);
    }

    /** The BLE branch of `sendDataToESP32`: chain the throttled job and await the chain. */
    method SendBle(data: string)
      requires Valid()
      modifies this
      ensures Valid()
      ensures old(BleSendRuns()) ==>
        var run := RunSlices(device, old(|attempts|), old(BleStart()), BleSlices(Payload(data)), 0);
        attempts == old(attempts) + run.attempts && clock == run.finish &&
        (run.failure.None? ==> lastBleWriteTime == clock && connected) &&
        (run.failure.Some? ==> lastBleWriteTime == old(lastBleWriteTime))
      ensures old(BleSendRuns()) ==>
        forall i :: old(|attempts|) <= i < |attempts| ==> attempts[i].at >= old(lastBleWriteTime) + BLE_MIN_WRITE_INTERVAL_MS
      ensures !(old(hasCharacteristic) && old(gatt) == Device(true)) ==>
        attempts == old(attempts) && clock == old(clock) && bleQueue == old(bleQueue)
      ensures old(hasCharacteristic) && old(gatt) == Device(true) ==> bleQueue == []
      ensures connected ==> old(connected)
      ensures pollTimer ==> old(pollTimer)
      ensures connectionType == old(connectionType) && gatt == old(gatt) && hasCharacteristic == old(hasCharacteristic)
      ensures serialPort == old(serialPort) && lastLightLevel == old(lastLightLevel)
      ensures statusUpdatesPausedUntil == old(statusUpdatesPausedUntil) && envBrightness == old(envBrightness)
      ensures requests == old(requests)
    {
      ghost var idle := BleSendRuns();
      ghost var n0, start, last := |attempts|, BleStart(), lastBleWriteTime;
      var queued := BeginBleSend(data);
      if queued {
        assert Utf8(data + "\n") == Payload(data);
        RunNextBleJob();
        DrainBleQueue();
        if idle {
          ghost var run := RunSlices(device, n0, start, BleSlices(Payload(data)), 0);
          ThrottledRun(n0, start, last, BleSlices(Payload(data)));
          assert forall i :: n0 <= i < |attempts| ==> attempts[i] == run.attempts[i - n0];
        }
      }
    }

    /**
     * `sendDataToESP32(data)`. Over USB, one write of the payload. Over BLE,
     * the throttled job is chained and awaited: on an idle link its writes
     * are the job's slices starting at `BleStart()`, so none starts earlier
     * than 800 ms after the previous successful job. With no connection type,
     * nothing happens. It never raises.
     */
    method Send(data: string)
      requires Valid()
      modifies this
      ensures Valid()
      ensures old(connectionType) == Some(Usb) ==>
        var go := old(serialPort).Some? && old(serialPort).value.writable && !old(serialPort).value.writerLocked;
        var r := device(old(|attempts|));
        connected == old(connected) &&
        (!go ==> attempts == old(attempts) && clock == old(clock) && serialPort == old(serialPort)) &&
        (go ==> attempts == old(attempts) + [Attempt(Usb, old(clock), Payload(data), r.Written?)] &&
                clock == old(clock) + (if r.Written? then r.latency else 0) &&
                serialPort == Some(old(serialPort).value.(writerLocked := r.Rejected?)))
      ensures old(BleSendRuns()) ==>
        var run := RunSlices(device, old(|attempts|), old(BleStart()), BleSlices(Payload(data)), 0);
        attempts == old(attempts) + run.attempts && clock == run.finish &&
        (run.failure.None? ==> lastBleWriteTime == clock && BleSendRuns()) &&
        (run.failure.Some? ==> lastBleWriteTime == old(lastBleWriteTime))
      ensures old(BleSendRuns()) ==>
        forall i :: old(|attempts|) <= i < |attempts| ==> attempts[i].at >= old(lastBleWriteTime) + BLE_MIN_WRITE_INTERVAL_MS
      ensures old(connectionType) == Some(Bluetooth) && !(old(hasCharacteristic) && old(gatt) == Device(true)) ==>
        attempts == old(attempts) && clock == old(clock)
      ensures old(connectionType).None? ==> attempts == old(attempts) && clock == old(clock)
      ensures connected ==> old(connected)
      ensures pollTimer ==> old(pollTimer)
      ensures old(connectionType) == Some(Bluetooth) && old(hasCharacteristic) && old(gatt) == Device(true) ==> bleQueue == []
      ensures old(connectionType) != Some(Bluetooth) ==> bleQueue == old(bleQueue)
      ensures connectionType == old(connectionType) && gatt == old(gatt) && hasCharacteristic == old(hasCharacteristic)
      ensures old(connectionType) != Some(Usb) ==> serialPort == old(serialPort)
      ensures statusUpdatesPausedUntil == old(statusUpdatesPausedUntil) && envBrightness == old(envBrightness)
      ensures lastLightLevel == old(lastLightLevel)
      ensures requests == old(requests) + [data]
    {
      if connectionType == Some(Usb) {
        SendUsb(data);
      } else if connectionType == Some(Bluetooth) {
        ghost var idle := BleSendRuns();
        ghost var n0, start, last := |attempts|, BleStart(), lastBleWriteTime;
        SendBle(data);
      }
      requests := requests + [data];
    }

    /** The poll tick sends `get_light` exactly under these conditions. */
    predicate PollWouldSend()
      reads this
    {
      pollTimer && connected && connectionType == Some(Usb) && serialPort.Some? && serialPort.value.writable &&
      envBrightness && clock >= statusUpdatesPausedUntil
    }

    /**
     * One tick of the 10-second interval set by `startStatusUpdates`. It
     * hands `get_light` to `sendDataToESP32` only over a connected, writable USB port, with the
     * ambient-brightness option on and the poll pause over; over BLE it
     * never sends.
     */
    method PollTick()
      requires Valid()
      modifies this
      ensures Valid()
      ensures !old(PollWouldSend()) ==> attempts == old(attempts) && clock == old(clock) && serialPort == old(serialPort)
      ensures old(PollWouldSend()) && !old(serialPort).value.writerLocked ==>
        var r := device(old(|attempts|));
        attempts == old(attempts) + [Attempt(Usb, old(clock), Payload(GET_LIGHT), r.Written?)] &&
        clock == old(clock) + (if r.Written? then r.latency else 0) &&
        serialPort == Some(old(serialPort).value.(writerLocked := r.Rejected?))
      ensures old(PollWouldSend()) && old(serialPort).value.writerLocked ==>
        attempts == old(attempts) && clock == old(clock) && serialPort == old(serialPort)
      ensures requests == old(requests) + (if old(PollWouldSend()) then [GET_LIGHT] else [])
      ensures old(connectionType) == Some(Bluetooth) ==> attempts == old(attempts)
      ensures connected == old(connected) && connectionType == old(connectionType) && gatt == old(gatt)
      ensures hasCharacteristic == old(hasCharacteristic) && lastBleWriteTime == old(lastBleWriteTime)
      ensures bleQueue == old(bleQueue) && pollTimer == old(pollTimer) && envBrightness == old(envBrightness)
      ensures statusUpdatesPausedUntil == old(statusUpdatesPausedUntil) && lastLightLevel == old(lastLightLevel)
    {
      if !pollTimer || !connected {
        return;
      }
      var usbOk := connectionType == Some(Usb) && serialPort.Some? && serialPort.value.writable;
      var bleOk := connectionType == Some(Bluetooth) && gatt == Device(true);
      if !usbOk && !bleOk {
        return;
      }
      if !envBrightness || clock < statusUpdatesPausedUntil {
        return;
      }
      if connectionType == Some(Bluetooth) {
        return;
      }
      // `sendDataToESP32` on a USB link, as in `Send`
      SendUsb(GET_LIGHT);
      requests := requests + [GET_LIGHT];
    }

    /**
     * `connectToESP32`, given how opening the port or device ended. When a
     * link is up it is torn down instead. A successful opening sets the
     * connection type, marks the link connected and pauses the poll for 10 s;
     * a BLE link first waits 800 ms. Then the key configuration and the
     * backlight configuration are sent. Connecting never arms the poll timer.
     */
    method Connect(opening: Opening, configMessage: string, backlightMessage: string)
      requires Valid()
      modifies this
      ensures Valid()
      ensures old(connected) && old(connectionType).Some? ==> IsReset()
      ensures !(old(connected) && old(connectionType).Some?) && (opening.UsbOpened? || opening.BleReady?) ==>
        connectionType == Some(if opening.UsbOpened? then Usb else Bluetooth) &&
        statusUpdatesPausedUntil >= old(clock) + CONNECT_POLL_PAUSE_MS
      ensures !(old(connected) && old(connectionType).Some?) && opening.Refused? ==>
        attempts == old(attempts) && clock == old(clock) && connected == old(connected) &&
        connectionType == old(connectionType) && gatt == old(gatt)
      ensures !(old(connected) && old(connectionType).Some?) && opening.BleGattOnly? ==>
        attempts == old(attempts) && !connected && gatt == Device(true) && connectionType == old(connectionType)
      ensures !(old(connected) && old(connectionType).Some?) && (opening.UsbOpened? || opening.BleReady?) && connected ==>
        requests == old(requests) + [configMessage, backlightMessage] &&
        statusUpdatesPausedUntil >= clock + BACKLIGHT_POLL_PAUSE_MS
      ensures pollTimer ==> old(pollTimer)
    {
      if connected && connectionType.Some? {
        Disconnect();
        return;
      }
      match opening {
        case Refused =>
          return;
        case BleGattOnly =>
          gatt := Device(true);
          return;
        case UsbOpened(port) =>
          serialPort := Some(port);
          connectionType := Some(Usb);
        case BleReady =>
          gatt := Device(true);
          hasCharacteristic := true;
          connectionType := Some(Bluetooth);
          lastBleWriteTime := clock;
      }
      connected := true;
      PauseStatusUpdatesUntil(clock + CONNECT_POLL_PAUSE_MS);
      if opening.BleReady? {
        Sleep(BLE_SETTLE_MS);
      }
      SendConfiguration(configMessage, backlightMessage);
    }

    /**
     * The end of `connectToESP32`: `sendConfigToESP32` and then
     * `sendBacklightConfig`, each doing nothing once the page is no longer
     * connected; the back-light send waits out its 400 ms debounce and then
     * holds the light-level poll off for 8 s.
     */
    method SendConfiguration(configMessage: string, backlightMessage: string)
      requires Valid()
      modifies this
      ensures Valid() && connectionType == old(connectionType)
      ensures gatt == old(gatt) && hasCharacteristic == old(hasCharacteristic)
      ensures envBrightness == old(envBrightness) && lastLightLevel == old(lastLightLevel)
      ensures pollTimer ==> old(pollTimer)
      ensures !old(connected) ==>
        attempts == old(attempts) && clock == old(clock) && statusUpdatesPausedUntil == old(statusUpdatesPausedUntil)
      ensures !old(connected) ==> requests == old(requests)
      ensures connected ==> requests == old(requests) + [configMessage, backlightMessage]
      ensures statusUpdatesPausedUntil == old(statusUpdatesPausedUntil) ||
        statusUpdatesPausedUntil == clock + BACKLIGHT_POLL_PAUSE_MS > old(statusUpdatesPausedUntil)
      ensures connected ==> statusUpdatesPausedUntil >= clock + BACKLIGHT_POLL_PAUSE_MS
      ensures old(connected) && old(connectionType) == Some(Usb) ==>
        var go := old(serialPort).Some? && old(serialPort).value.writable && !old(serialPort).value.writerLocked;
        var r1, r2 := device(old(|attempts|)), device(old(|attempts|) + 1);
        var t1 := old(clock) + (if r1.Written? then r1.latency else 0);
        (!go ==> attempts == old(attempts)) &&
        (go ==> attempts == old(attempts) + [Attempt(Usb, old(clock), Payload(configMessage), r1.Written?)] +
                (if r1.Rejected? then [] else [Attempt(Usb, t1 + BACKLIGHT_DEBOUNCE_MS, Payload(backlightMessage), r2.Written?)]))
      ensures old(BleSendRuns()) ==>
        var run1 := RunSlices(device, old(|attempts|), old(BleStart()), BleSlices(Payload(configMessage)), 0);
        var run2 := RunSlices(device, old(|attempts|) + |run1.attempts|, run1.finish + BLE_MIN_WRITE_INTERVAL_MS, BleSlices(Payload(backlightMessage)), 0);
        run1.failure.None? ==> TwoJobsLogged(attempts, old(attempts), run1.attempts, run2.attempts)
    {
      if !connected {
        return;
      }
      if connectionType == Some(Usb) {
        SendPairUsb(configMessage, backlightMessage);
      } else {
        SendPairOther(configMessage, backlightMessage);
      }
    }

    /**
     * The two sends of `SendConfiguration` on a connected USB link. The
     * split by link type, like the one in `sendDataToESP32`, keeps each
     * proof small.
     */
    method SendPairUsb(configMessage: string, backlightMessage: string)
      requires Valid() && connected && connectionType == Some(Usb)
      modifies this
      ensures Valid() && connectionType == old(connectionType)
      ensures gatt == old(gatt) && hasCharacteristic == old(hasCharacteristic)
      ensures envBrightness == old(envBrightness) && lastLightLevel == old(lastLightLevel)
      ensures pollTimer ==> old(pollTimer)
      ensures connected ==> requests == old(requests) + [configMessage, backlightMessage]
      ensures statusUpdatesPausedUntil == old(statusUpdatesPausedUntil) ||
        statusUpdatesPausedUntil == clock + BACKLIGHT_POLL_PAUSE_MS > old(statusUpdatesPausedUntil)
      ensures connected ==> statusUpdatesPausedUntil >= clock + BACKLIGHT_POLL_PAUSE_MS
      ensures var go := old(serialPort).Some? && old(serialPort).value.writable && !old(serialPort).value.writerLocked;
        var r1, r2 := device(old(|attempts|)), device(old(|attempts|) + 1);
        var t1 := old(clock) + (if r1.Written? then r1.latency else 0);
        (!go ==> attempts == old(attempts)) &&
        (go ==> attempts == old(attempts) + [Attempt(Usb, old(clock), Payload(configMessage), r1.Written?)] +
                (if r1.Rejected? then [] else [Attempt(Usb, t1 + BACKLIGHT_DEBOUNCE_MS, Payload(backlightMessage), r2.Written?)]))
    {
      Send(configMessage);
      SendBacklight(backlightMessage);
    }

    /** The two sends of `SendConfiguration` on a connected link that is not USB. */
    method SendPairOther(configMessage: string, backlightMessage: string)
      requires Valid() && connected && connectionType != Some(Usb)
      modifies this
      ensures Valid() && connectionType == old(connectionType)
      ensures gatt == old(gatt) && hasCharacteristic == old(hasCharacteristic)
      ensures envBrightness == old(envBrightness) && lastLightLevel == old(lastLightLevel)
      ensures pollTimer ==> old(pollTimer)
      ensures connected ==> requests == old(requests) + [configMessage, backlightMessage]
      ensures statusUpdatesPausedUntil == old(statusUpdatesPausedUntil) ||
        statusUpdatesPausedUntil == clock + BACKLIGHT_POLL_PAUSE_MS > old(statusUpdatesPausedUntil)
      ensures connected ==> statusUpdatesPausedUntil >= clock + BACKLIGHT_POLL_PAUSE_MS
      ensures old(BleSendRuns()) ==>
        var run1 := RunSlices(device, old(|attempts|), old(BleStart()), BleSlices(Payload(configMessage)), 0);
        var run2 := RunSlices(device, old(|attempts|) + |run1.attempts|, run1.finish + BLE_MIN_WRITE_INTERVAL_MS, BleSlices(Payload(backlightMessage)), 0);
        run1.failure.None? ==> TwoJobsLogged(attempts, old(attempts), run1.attempts, run2.attempts)
    {
      if BleSendRuns() {
        SendPairBle(configMessage, backlightMessage);
      } else {
        Send(configMessage);
        SendBacklight(backlightMessage);
      }
    }

    /** The two sends of `SendConfiguration` on an idle BLE link. */
    method SendPairBle(configMessage: string, backlightMessage: string)
      requires Valid() && BleSendRuns()
      modifies this
      ensures Valid() && connectionType == old(connectionType)
      ensures gatt == old(gatt) && hasCharacteristic == old(hasCharacteristic)
      ensures envBrightness == old(envBrightness) && lastLightLevel == old(lastLightLevel)
      ensures pollTimer ==> old(pollTimer)
      ensures connected ==> requests == old(requests) + [configMessage, backlightMessage]
      ensures statusUpdatesPausedUntil == old(statusUpdatesPausedUntil) ||
        statusUpdatesPausedUntil == clock + BACKLIGHT_POLL_PAUSE_MS > old(statusUpdatesPausedUntil)
      ensures connected ==> statusUpdatesPausedUntil >= clock + BACKLIGHT_POLL_PAUSE_MS
      ensures var run1 := RunSlices(device, old(|attempts|), old(BleStart()), BleSlices(Payload(configMessage)), 0);
        var run2 := RunSlices(device, old(|attempts|) + |run1.attempts|, run1.finish + BLE_MIN_WRITE_INTERVAL_MS, BleSlices(Payload(backlightMessage)), 0);
        run1.failure.None? ==> TwoJobsLogged(attempts, old(attempts), run1.attempts, run2.attempts)
    {
      ghost var n0, start := |attempts|, BleStart();
      SendJob(configMessage, n0, start);
      ghost var run1 := RunSlices(device, n0, start, BleSlices(Payload(configMessage)), 0);
      ghost var mid := attempts;
      SendBacklightAfterJob(backlightMessage, n0 + |run1.attempts|, run1.finish);
      ghost var run2 := RunSlices(device, n0 + |run1.attempts|, run1.finish + BLE_MIN_WRITE_INTERVAL_MS, BleSlices(Payload(backlightMessage)), 0);
      JobsCompose(old(attempts), mid, attempts, run1, run2.attempts);
    }

    /** What `SendPairBle` needs of `Send` on an idle BLE link. */
    method SendJob(data: string, ghost n: nat, ghost start: nat)
      requires Valid() && BleSendRuns() && n == |attempts| && start == BleStart()
      modifies this
      ensures Valid() && connectionType == old(connectionType)
      ensures gatt == old(gatt) && hasCharacteristic == old(hasCharacteristic)
      ensures envBrightness == old(envBrightness) && lastLightLevel == old(lastLightLevel)
      ensures pollTimer ==> old(pollTimer)
      ensures requests == old(requests) + [data] && statusUpdatesPausedUntil == old(statusUpdatesPausedUntil)
      ensures var run := RunSlices(device, n, start, BleSlices(Payload(data)), 0);
        attempts == old(attempts) + run.attempts && |attempts| == n + |run.attempts| && clock == run.finish &&
        (run.failure.None? ==> lastBleWriteTime == clock && BleSendRuns())
    {
      Send(data);
    }

    /** What `SendPairBle` needs of `SendBacklight` once a BLE job has just succeeded. */
    method SendBacklightAfterJob(data: string, ghost n: nat, ghost t: nat)
      requires Valid() && n == |attempts| && t == clock
      modifies this
      ensures Valid() && connectionType == old(connectionType)
      ensures gatt == old(gatt) && hasCharacteristic == old(hasCharacteristic)
      ensures envBrightness == old(envBrightness) && lastLightLevel == old(lastLightLevel)
      ensures pollTimer ==> old(pollTimer)
      ensures connected ==> old(connected)
      ensures requests == old(requests) + (if old(connected) then [data] else [])
      ensures statusUpdatesPausedUntil == old(statusUpdatesPausedUntil) ||
        statusUpdatesPausedUntil == clock + BACKLIGHT_POLL_PAUSE_MS > old(statusUpdatesPausedUntil)
      ensures connected ==> statusUpdatesPausedUntil >= clock + BACKLIGHT_POLL_PAUSE_MS
      ensures old(BleSendRuns()) && old(lastBleWriteTime) == t ==>
        attempts == old(attempts) + RunSlices(device, n, t + BLE_MIN_WRITE_INTERVAL_MS, BleSlices(Payload(data)), 0).attempts
    {
      SendBacklight(data);
    }

    /**
     * `sendBacklightConfig`: nothing once the page is not connected; else,
     * after its 400 ms debounce, one send, and the light-level poll held off
     * for 8 s from when that send is done.
     */
    method SendBacklight(data: string)
      requires Valid()
      modifies this
      ensures Valid() && connectionType == old(connectionType)
      ensures gatt == old(gatt) && hasCharacteristic == old(hasCharacteristic)
      ensures envBrightness == old(envBrightness) && lastLightLevel == old(lastLightLevel)
      ensures pollTimer ==> old(pollTimer)
      ensures connected ==> old(connected)
      ensures !old(connected) ==>
        attempts == old(attempts) && clock == old(clock) && statusUpdatesPausedUntil == old(statusUpdatesPausedUntil)
      ensures requests == old(requests) + (if old(connected) then [data] else [])
      ensures old(connected) ==>
        statusUpdatesPausedUntil == (if old(statusUpdatesPausedUntil) < clock + BACKLIGHT_POLL_PAUSE_MS
                                     then clock + BACKLIGHT_POLL_PAUSE_MS else old(statusUpdatesPausedUntil))
      ensures old(connected) && old(connectionType) == Some(Usb) ==>
        var go := old(serialPort).Some? && old(serialPort).value.writable && !old(serialPort).value.writerLocked;
        var r := device(old(|attempts|));
        (!go ==> attempts == old(attempts)) &&
        (go ==> attempts == old(attempts) + [Attempt(Usb, old(clock) + BACKLIGHT_DEBOUNCE_MS, Payload(data), r.Written?)])
      ensures old(connected) && old(BleSendRuns()) ==>
        var t := old(clock) + BACKLIGHT_DEBOUNCE_MS;
        var start := if t - old(lastBleWriteTime) < BLE_MIN_WRITE_INTERVAL_MS then old(lastBleWriteTime) + BLE_MIN_WRITE_INTERVAL_MS else t;
        attempts == old(attempts) + RunSlices(device, old(|attempts|), start, BleSlices(Payload(data)), 0).attempts
      ensures old(BleSendRuns()) && old(lastBleWriteTime) == old(clock) ==>
        attempts == old(attempts) + RunSlices(device, old(|attempts|), old(clock) + BLE_MIN_WRITE_INTERVAL_MS, BleSlices(Payload(data)), 0).attempts
    {
      if !connected {
        return;
      }
      ghost var n0, ble := |attempts|, BleSendRuns();
      Sleep(BACKLIGHT_DEBOUNCE_MS);
      ghost var start := BleStart();
      assert ble ==> BleSendRuns();
      Send(data);
      ghost var run := RunSlices(device, n0, start, BleSlices(Payload(data)), 0);
      assert ble ==> attempts == old(attempts) + run.attempts;
      PauseStatusUpdatesUntil(clock + BACKLIGHT_POLL_PAUSE_MS);
    }
  }
}

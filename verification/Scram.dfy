/** SCRAM credentials for Kafka users (internal/app_kafka_scram.go). */
module Scram {
  import opened Wrappers
  import opened GoStrings

  type Bytes = seq<bv8>

  // HMAC over some hash function: key and message to digest
  type Mac = (Bytes, Bytes) -> Bytes

  ghost predicate FixedLength(mac: Mac, n: nat) {
    forall key, message :: |mac(key, message)| == n
  }

  // ---------- section 2.2 of RFC 5802 ----------

  // U1 := HMAC(str, salt + INT(1)), and Ui := HMAC(str, Ui-1).
  function U(mac: Mac, password: Bytes, salt: Bytes, i: nat): Bytes
    requires i >= 1
  {
    if i == 1 then mac(password, salt + [0, 0, 0, 1]) else mac(password, U(mac, password, salt, i - 1))
  }

  function Xor(a: Bytes, b: Bytes): (r: Bytes)
    requires |a| == |b|
    ensures |r| == |a|
  {
    seq(|a|, j requires 0 <= j < |a| => a[j] ^ b[j])
  }

  // Hi := U1 XOR U2 XOR ... XOR Ui
  function Hi(mac: Mac, password: Bytes, salt: Bytes, i: nat, n: nat): (r: Bytes)
    requires i >= 1 && FixedLength(mac, n)
    ensures |r| == n
  {
    if i == 1 then U(mac, password, salt, 1)
    else Xor(Hi(mac, password, salt, i - 1, n), U(mac, password, salt, i))
  }

  // One byte of Uk XOR ... XOR Ui, grouped from the right.
  function Column(mac: Mac, password: Bytes, salt: Bytes, j: nat, k: nat, i: nat, n: nat): bv8
    requires 1 <= k <= i && FixedLength(mac, n) && j < n
    decreases i - k
  {
    var u := U(mac, password, salt, k)[j];
    if k == i then u else u ^ Column(mac, password, salt, j, k + 1, i, n)
  }

  lemma {:induction false} ColumnSnoc(mac: Mac, password: Bytes, salt: Bytes, j: nat, k: nat, i: nat, n: nat)
    requires 1 <= k < i && FixedLength(mac, n) && j < n
    ensures Column(mac, password, salt, j, k, i, n)
         == Column(mac, password, salt, j, k, i - 1, n) ^ U(mac, password, salt, i)[j]
    decreases i - k
  {
    if k + 1 < i {
      ColumnSnoc(mac, password, salt, j, k + 1, i, n);
      var u, c, v := U(mac, password, salt, k)[j], Column(mac, password, salt, j, k + 1, i - 1, n), U(mac, password, salt, i)[j];
      assert u ^ (c ^ v) == (u ^ c) ^ v;
    }
  }

  // Every byte of Hi is the XOR of that byte of all the blocks, in whatever grouping.
  lemma {:induction false} HiByColumns(mac: Mac, password: Bytes, salt: Bytes, i: nat, n: nat, j: nat)
    requires i >= 1 && FixedLength(mac, n) && j < n
    ensures Hi(mac, password, salt, i, n)[j] == Column(mac, password, salt, j, 1, i, n)
  {
    if i > 1 {
      HiByColumns(mac, password, salt, i - 1, n, j);
      ColumnSnoc(mac, password, salt, j, 1, i, n);
    }
  }

  // ---------- the loop ----------

  const ITERATIONS := 4096

  // hmac.New, Write and Sum(nil): a newly allocated digest
  method Digest(mac: Mac, key: Bytes, message: Bytes) returns (sum: array<bv8>)
    ensures fresh(sum) && sum[..] == mac(key, message)
  {
    var d := mac(key, message);
    sum := new bv8[|d|](i requires 0 <= i < |d| => d[i]);
  }

  // The inner loop: result[j] ^= ui[j]
  method XorInto(result: array<bv8>, ui: array<bv8>)
    requires result != ui && result.Length == ui.Length
    modifies result
    ensures result[..] == Xor(old(result[..]), ui[..])
  {
    for j := 0 to result.Length
      invariant forall k :: 0 <= k < j ==> result[k] == old(result[k]) ^ ui[k]
      invariant forall k :: j <= k < result.Length ==> result[k] == old(result[k])
    {
      result[j] := result[j] ^ ui[j];
    }
  }

  // kafkaScramHi512 and kafkaScramHi256, which differ in the hash alone
  method KafkaScramHi(mac: Mac, password: Bytes, salt: Bytes, iterations: int, ghost n: nat) returns (result: array<bv8>)
    requires FixedLength(mac, n)
    ensures fresh(result)
    ensures result[..] == Hi(mac, password, salt, if iterations < 1 then 4096 else iterations, n)
  {
    var rounds := if iterations < 1 then ITERATIONS else iterations;
    var u1 := Digest(mac, password, salt + [0, 0, 0, 1]);
    result := new bv8[u1.Length](i requires 0 <= i < u1.Length reads u1 => u1[i]);
    var prev := u1;
    var i := 2;
    assert result[..] == u1[..];
    while i <= rounds
      invariant 2 <= i <= rounds + 1
      invariant fresh(result) && fresh(prev) && prev != result
      invariant prev[..] == U(mac, password, salt, i - 1)
      invariant result[..] == Hi(mac, password, salt, i - 1, n)
    {
      var ui := Digest(mac, password, prev[..]);
      XorInto(result, ui);
      prev := ui;
      i := i + 1;
    }
  }

  // The first two values, as section 2.2 of RFC 5802 writes them: the MAC of the salt and the number 1
  // in four octets, and its exclusive or with the MAC of that
  lemma HiBegins(mac: Mac, password: Bytes, salt: Bytes, n: nat)
    requires FixedLength(mac, n)
    ensures var first := mac(password, salt + [0, 0, 0, 1]);
      Hi(mac, password, salt, 1, n) == first && Hi(mac, password, salt, 2, n) == Xor(first, mac(password, first))
  {
  }

  // ---------- mechanisms ----------

  datatype Error = EmptyCredential | PlainCluster | Unsupported(mechanism: string)

  datatype Upsertion = Upsertion(name: string, mechanism: int, iterations: int, salt: Bytes, saltedPassword: Bytes)

  // Both operations begin by normalising the cluster's setting.
  function ClusterMechanism(raw: string): string {
    var m := ToUpper(TrimSpace(raw));
    if m == "" then "SCRAM-SHA-512" else m
  }

  function NewUpsertion(mac: Mac, n: nat, id: int, username: string, password: string, bytes: Bytes, salt: Bytes): Result<Upsertion, Error>
    requires FixedLength(mac, n)
  {
    if username == "" || password == "" then Err(EmptyCredential)
    else Ok(Upsertion(username, id, ITERATIONS, salt, Hi(mac, bytes, salt, ITERATIONS, n)))
  }

  function UpsertForClusterMechanism(sha512: Mac, sha256: Mac, raw: string, username: string, password: string,
                                     bytes: Bytes, salt: Bytes): Result<Upsertion, Error>
    requires FixedLength(sha512, 64) && FixedLength(sha256, 32)
  {
    var m := ClusterMechanism(raw);
    if m == "SCRAM-SHA-512" then NewUpsertion(sha512, 64, 2, username, password, bytes, salt)
    else if m == "SCRAM-SHA-256" then NewUpsertion(sha256, 32, 1, username, password, bytes, salt)
    else if m == "PLAIN" then Err(PlainCluster)
    else Err(Unsupported(m))
  }

  function DeletionMechanism(raw: string): Result<int, Error> {
    var name := ClusterMechanism(raw);
    if name == "SCRAM-SHA-512" then Ok(2)
    else if name == "SCRAM-SHA-256" then Ok(1)
    else if name == "PLAIN" then Err(PlainCluster)
    else Err(Unsupported(name))
  }

  // For every cluster mechanism text, a credential is written and deleted under the same mechanism
  // id, with a salted password of that mechanism's hash, and the two operations reject the same
  // texts for the same reason.
  lemma UpsertAndDeletionAgree(sha512: Mac, sha256: Mac, raw: string, username: string, password: string,
                               bytes: Bytes, salt: Bytes)
    requires FixedLength(sha512, 64) && FixedLength(sha256, 32)
    requires username != "" && password != ""
    ensures
      var up := UpsertForClusterMechanism(sha512, sha256, raw, username, password, bytes, salt);
      var del := DeletionMechanism(raw);
      match del
      case Err(e) => up == Err(e)
      case Ok(id) =>
        up.Ok? && up.value.mechanism == id && up.value.name == username && up.value.salt == salt && up.value.iterations == 4096 &&
        |up.value.saltedPassword| == (if id == 2 then 64 else 32) &&
        (id == 2 || id == 1) &&
        forall j :: 0 <= j < |up.value.saltedPassword| ==>
          up.value.saltedPassword[j] ==
            (if id == 2 then Column(sha512, bytes, salt, j, 1, up.value.iterations, 64)
             else Column(sha256, bytes, salt, j, 1, up.value.iterations, 32))
  {
    hide TrimSpace, ToUpper, Hi, Column;
    forall j: nat | j < 64 ensures Hi(sha512, bytes, salt, ITERATIONS, 64)[j] == Column(sha512, bytes, salt, j, 1, ITERATIONS, 64) {
      HiByColumns(sha512, bytes, salt, ITERATIONS, 64, j);
    }
    forall j: nat | j < 32 ensures Hi(sha256, bytes, salt, ITERATIONS, 32)[j] == Column(sha256, bytes, salt, j, 1, ITERATIONS, 32) {
      HiByColumns(sha256, bytes, salt, ITERATIONS, 32, j);
    }
  }

  // Which mechanism a setting means, in any case and with any white space around it: SHA-512 unless
  // told otherwise, and none for PLAIN and for anything unknown.
  lemma MechanismIs(raw: string)
    ensures var m, r := ToUpper(TrimSpace(raw)), DeletionMechanism(raw);
      (m == "" || m == "SCRAM-SHA-512" ==> r == Ok(2)) &&
      (m == "SCRAM-SHA-256" ==> r == Ok(1)) &&
      (m == "PLAIN" ==> r == Err(PlainCluster)) &&
      (m != "" && m != "SCRAM-SHA-512" && m != "SCRAM-SHA-256" && m != "PLAIN" ==> r == Err(Unsupported(m)))
  {
    hide ToUpper, TrimSpace;
    assert "SCRAM-SHA-512" != "SCRAM-SHA-256" by { assert "SCRAM-SHA-512"[10] != "SCRAM-SHA-256"[10]; }
    assert |"PLAIN"| != |"SCRAM-SHA-512"|;
  }

  // A user without a name or without a password is refused whatever the mechanism, unless the
  // mechanism itself is.
  lemma EmptyCredentialsAreRefused(sha512: Mac, sha256: Mac, raw: string, username: string, password: string, bytes: Bytes, salt: Bytes)
    requires FixedLength(sha512, 64) && FixedLength(sha256, 32) && (username == "" || password == "")
    ensures UpsertForClusterMechanism(sha512, sha256, raw, username, password, bytes, salt) ==
      Err(if DeletionMechanism(raw).Ok? then EmptyCredential else DeletionMechanism(raw).error)
  {
    hide ClusterMechanism, Hi;
  }
}

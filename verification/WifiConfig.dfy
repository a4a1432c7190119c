/**
 The credentials of a network. The firmware keeps them in two fields side by side, zero-padded and
 without a NUL of their own, and reads them as C strings.
 */
module WifiConfig {
  import opened Bytes

  const MAX_SSID_SIZE := 32
  const MAX_PASSWORD_SIZE := 64

  /** The texts in the two fields; clearing the structure empties both. */
  datatype Config = Config(ssid: seq<byte>, password: seq<byte>)

  const ZERO_CONFIG := Config([], [])

  predicate HasSsid(c: Config) {
    c.ssid != []
  }

  /** The texts that two fields of these sizes can hold. */
  ghost predicate Fits(c: Config) {
    |c.ssid| <= MAX_SSID_SIZE && |c.password| <= MAX_PASSWORD_SIZE && NulFree(c.ssid) && NulFree(c.password)
  }

  function Field(v: seq<byte>, size: nat): seq<byte>
    requires |v| <= size
  {
    v + Zeros(size - |v|)
  }

  /** The memory from the SSID on: its field, the password's field, and the zeros behind. */
  function StaBytes(c: Config): seq<byte>
    requires |c.ssid| <= MAX_SSID_SIZE && |c.password| <= MAX_PASSWORD_SIZE
  {
    Field(c.ssid, MAX_SSID_SIZE) + (Field(c.password, MAX_PASSWORD_SIZE) + [NUL])
  }

  /** The name the firmware prints: an SSID that fills its field runs on into the password. */
  function PrintedName(c: Config): seq<byte> {
    if |c.ssid| < MAX_SSID_SIZE then c.ssid else c.ssid + c.password
  }

  /** That name is the C string that starts where the SSID does, and it ends within the structure. */
  lemma {:induction false} PrintedNameIsRead(c: Config)
    requires Fits(c)
    ensures CStr(StaBytes(c)) == PrintedName(c) && |PrintedName(c)| < |StaBytes(c)|
  {
    var rest := Zeros(MAX_PASSWORD_SIZE - |c.password|) + [NUL];
    if |c.ssid| < MAX_SSID_SIZE {
      var behind := Zeros(MAX_SSID_SIZE - |c.ssid|) + (Field(c.password, MAX_PASSWORD_SIZE) + [NUL]);
      assert StaBytes(c) == c.ssid + behind;
      CStrStops(c.ssid, behind);
    } else {
      assert StaBytes(c) == (c.ssid + c.password) + rest;
      CStrStops(c.ssid + c.password, rest);
    }
  }

  /** The printed name is the SSID if and only if the SSID leaves room for a NUL or there is no password. */
  lemma {:induction false} NamesSsidIff(c: Config)
    ensures PrintedName(c) == c.ssid <==> |c.ssid| < 32 || c.password == []
  {
    if |c.ssid| >= MAX_SSID_SIZE {
      assert |PrintedName(c)| == |c.ssid| + |c.password|;
      assert c.password == [] ==> c.ssid + c.password == c.ssid;
    }
  }

  /** All the same, the printed name tells the SSID. */
  lemma {:induction false} PrintedNameTellsSsid(c: Config, d: Config)
    requires Fits(c) && Fits(d) && PrintedName(c) == PrintedName(d)
    ensures c.ssid == d.ssid
  {
    assert PrintedName(c)[..|c.ssid|] == c.ssid && PrintedName(d)[..|d.ssid|] == d.ssid;
  }
}

/** Ethernet addresses and the 64-bit key that stands for a vehicle. */
module Addresses {
  import opened Common

  type Mac = mac: seq<Byte> | |mac| == 6 witness [0, 0, 0, 0, 0, 0]

  /** A composite address: physical address and logical port. */
  datatype Address = Address(mac: Mac, port: nat)

  /** The key after n bytes; the low byte of the shifted key is zero, so OR is addition. */
  function KeyOfPrefix(mac: Mac, n: nat): (k: nat)
    requires n <= 6
  {
    if n == 0 then 0 else KeyOfPrefix(mac, n - 1) * 256 + mac[n - 1]
  }

  function MacKey(mac: Mac): nat
  {
    KeyOfPrefix(mac, 6)
  }

  /** The key's bytes are the address's, the first one highest. */
  lemma KeyInBytes(mac: Mac)
    ensures MacKey(mac) == 0x100_0000_0000 * (mac[0] as int) + 0x1_0000_0000 * (mac[1] as int)
                           + 0x100_0000 * (mac[2] as int) + 0x1_0000 * (mac[3] as int)
                           + 0x100 * (mac[4] as int) + mac[5] as int
  {
    assert KeyOfPrefix(mac, 0) == 0 && KeyOfPrefix(mac, 1) == mac[0] as int;
    assert KeyOfPrefix(mac, 2) == KeyOfPrefix(mac, 1) * 256 + mac[1] as int;
    assert KeyOfPrefix(mac, 3) == KeyOfPrefix(mac, 2) * 256 + mac[2] as int;
    assert KeyOfPrefix(mac, 4) == KeyOfPrefix(mac, 3) * 256 + mac[3] as int;
    assert KeyOfPrefix(mac, 5) == KeyOfPrefix(mac, 4) * 256 + mac[4] as int;
    assert KeyOfPrefix(mac, 6) == KeyOfPrefix(mac, 5) * 256 + mac[5] as int;
  }

  method ComputeMacKey(a: Address) returns (k: nat)
    ensures k == MacKey(a.mac)
    ensures k < 0x1_0000_0000_0000
  {
    k := 0;
    var bound := 1;
    for i := 0 to 6
      invariant k == KeyOfPrefix(a.mac, i)
      invariant k < bound
      invariant bound == [1, 0x100, 0x1_0000, 0x100_0000, 0x1_0000_0000, 0x100_0000_0000, 0x1_0000_0000_0000][i]
    {
      k := k * 256 + a.mac[i];
      bound := bound * 256;
    }
  }

  lemma {:induction false} PrefixInjective(a: Mac, b: Mac, n: nat)
    requires n <= 6 && KeyOfPrefix(a, n) == KeyOfPrefix(b, n)
    ensures a[..n] == b[..n]
  {
    if n > 0 {
      PrefixInjective(a, b, n - 1);
      assert a[..n] == a[..n - 1] + [a[n - 1]] && b[..n] == b[..n - 1] + [b[n - 1]];
    }
  }

  /** Two vehicles never share a key. */
  lemma MacKeyInjective(a: Mac, b: Mac)
    requires MacKey(a) == MacKey(b)
    ensures a == b
  {
    PrefixInjective(a, b, 6);
    assert a == a[..6] && b == b[..6];
  }
}

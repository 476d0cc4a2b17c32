/** dockerutil/network.go: the address of the inner Docker bridge, the first one
    of the network that a CIDR text names. */
module Bridge {
  import opened GoText

  datatype IPv4 = IPv4(b0: bv8, b1: bv8, b2: bv8, b3: bv8)

  // ----- Texts: net.ParseCIDR for dotted addresses

  /** An octet has no leading zero and is at most 255. */
  function ParseOctet(s: string): Option<bv8> {
    if s == "" || !AllDigits(s) || (|s| > 1 && s[0] == '0') || DigitsValue(s) > 255 then None
    else Some(DigitsValue(s) as bv8)
  }

  function ParseAddr(s: string): Option<IPv4> {
    var fields := Split(s, '.');
    if |fields| != 4 then None
    else
      var b0, b1, b2, b3 := ParseOctet(fields[0]), ParseOctet(fields[1]), ParseOctet(fields[2]), ParseOctet(fields[3]);
      if b0.None? || b1.None? || b2.None? || b3.None? then None
      else Some(IPv4(b0.value, b1.value, b2.value, b3.value))
  }

  /** The length may have leading zeros. */
  function ParseLength(s: string): Option<nat> {
    if s == "" || !AllDigits(s) || DigitsValue(s) > 32 then None else Some(DigitsValue(s))
  }

  datatype Cidr = Cidr(ip: IPv4, length: nat)

  /** Everything after the first '/' is the length, which cannot contain another. */
  function ParseCIDR(s: string): Option<Cidr> {
    var parts := Split(s, '/');
    if |parts| != 2 then None
    else
      var ip, length := ParseAddr(parts[0]), ParseLength(parts[1]);
      if ip.None? || length.None? then None else Some(Cidr(ip.value, length.value))
  }

  function OctetText(b: bv8): string {
    Digits(b as nat)
  }

  function AddrText(ip: IPv4): string {
    Join([OctetText(ip.b0), OctetText(ip.b1), OctetText(ip.b2), OctetText(ip.b3)], '.')
  }

  /** Bytes and the numbers up to 255 are the same thing. */
  lemma ByteOfNatOfByte(b: bv8)
    ensures (b as nat) as bv8 == b
  {
  }

  lemma ByteSuccessor(b: bv8)
    requires b != 0xff
    ensures (b + 1) as nat == (b as nat) + 1
  {
  }

  lemma {:induction false} ByteWithValue(n: nat) returns (b: bv8)
    requires n <= 255
    ensures b as nat == n
  {
    b := 0;
    if n > 0 {
      var c := ByteWithValue(n - 1);
      ByteSuccessor(c);
      b := c + 1;
    }
  }

  lemma NatOfByteOfNat(n: nat)
    requires n <= 255
    ensures (n as bv8) as nat == n
  {
    var b := ByteWithValue(n);
    ByteOfNatOfByte(b);
  }

  lemma OctetIff(s: string, b: bv8)
    ensures ParseOctet(s) == Some(b) <==> s == OctetText(b)
  {
    if s == OctetText(b) {
      DigitsValueDigits(b as nat);
      DigitsAreCanonical(b as nat);
      ByteOfNatOfByte(b);
    }
    if ParseOctet(s) == Some(b) {
      NatOfByteOfNat(DigitsValue(s));
      CanonicalDigits(s);
    }
  }

  lemma SplitAddrText(ip: IPv4)
    ensures Split(AddrText(ip), '.') == [OctetText(ip.b0), OctetText(ip.b1), OctetText(ip.b2), OctetText(ip.b3)]
  {
    SplitJoin([OctetText(ip.b0), OctetText(ip.b1), OctetText(ip.b2), OctetText(ip.b3)], '.');
  }

  lemma AddrParses(ip: IPv4)
    ensures ParseAddr(AddrText(ip)) == Some(ip)
  {
    SplitAddrText(ip);
    OctetIff(OctetText(ip.b0), ip.b0);
    OctetIff(OctetText(ip.b1), ip.b1);
    OctetIff(OctetText(ip.b2), ip.b2);
    OctetIff(OctetText(ip.b3), ip.b3);
  }

  /** Exactly the printed addresses are accepted, each as the address it prints. */
  lemma AddrIff(s: string, ip: IPv4)
    ensures ParseAddr(s) == Some(ip) <==> s == AddrText(ip)
  {
    if ParseAddr(s) == Some(ip) {
      var fields := Split(s, '.');
      OctetIff(fields[0], ip.b0);
      OctetIff(fields[1], ip.b1);
      OctetIff(fields[2], ip.b2);
      OctetIff(fields[3], ip.b3);
      assert fields == [OctetText(ip.b0), OctetText(ip.b1), OctetText(ip.b2), OctetText(ip.b3)];
    }
    AddrParses(ip);
  }

  lemma AddrTextAlphabet(ip: IPv4)
    ensures '/' !in AddrText(ip)
  {
    JoinAvoids([OctetText(ip.b0), OctetText(ip.b1), OctetText(ip.b2), OctetText(ip.b3)], '.', '/');
  }

  lemma {:induction false} JoinAvoids(parts: seq<string>, sep: char, c: char)
    requires NoneContain(parts, c) && sep != c
    ensures c !in Join(parts, sep)
  {
    if |parts| > 1 {
      JoinAvoids(parts[1..], sep, c);
    }
  }

  /** The accepted texts: a printed address, '/', and digits of value at most 32. */
  lemma CidrIff(s: string, cidr: Cidr)
    ensures ParseCIDR(s) == Some(cidr) <==>
      exists digits :: s == AddrText(cidr.ip) + "/" + digits && ParseLength(digits) == Some(cidr.length)
  {
    var parts := Split(s, '/');
    if ParseCIDR(s) == Some(cidr) {
      AddrIff(parts[0], cidr.ip);
      assert parts == [parts[0], parts[1]];
      assert s == Join(parts, '/') == parts[0] + "/" + parts[1];
      assert s == AddrText(cidr.ip) + "/" + parts[1] && ParseLength(parts[1]) == Some(cidr.length);
    }
    forall digits | s == AddrText(cidr.ip) + "/" + digits && ParseLength(digits) == Some(cidr.length)
      ensures ParseCIDR(s) == Some(cidr)
    {
      AddrTextAlphabet(cidr.ip);
      AddrIff(AddrText(cidr.ip), cidr.ip);
      SplitJoin([AddrText(cidr.ip), digits], '/');
      assert [AddrText(cidr.ip), digits][1..] == [digits];
    }
  }

  // ----- Arithmetic

  /** One byte of net.CIDRMask: its first n bits are set. */
  function MaskByte(n: int): bv8 {
    if n >= 8 then 0xff else if n <= 0 then 0 else !((0xff as bv8) >> n)
  }

  function Mask(length: nat): IPv4 {
    IPv4(MaskByte(length), MaskByte(length - 8), MaskByte(length - 16), MaskByte(length - 24))
  }

  function And(a: IPv4, b: IPv4): IPv4 {
    IPv4(a.b0 & b.b0, a.b1 & b.b1, a.b2 & b.b2, a.b3 & b.b3)
  }

  /** The 32-bit number of an address; the additions wrap around. */
  function Decode(ip: IPv4): bv32 {
    var v := (ip.b0 as bv32) << 24;
    var v := v + ((ip.b1 as bv32) << 16);
    var v := v + ((ip.b2 as bv32) << 8);
    v + (ip.b3 as bv32)
  }

  function Encode(v: bv32): IPv4 {
    IPv4(((v >> 24) & 0xff) as bv8, ((v >> 16) & 0xff) as bv8, ((v >> 8) & 0xff) as bv8, (v & 0xff) as bv8)
  }

  function NextIPv4(ip: IPv4, inc: bv32): IPv4 {
    Encode(Decode(ip) + inc)
  }

  function BridgeIP(ip: IPv4, length: nat): IPv4 {
    NextIPv4(And(ip, Mask(length)), 1)
  }

  /** None where the code panics. */
  function BridgeIPFromCIDR(s: string): Option<Cidr> {
    var cidr := ParseCIDR(s);
    if cidr.None? then None else Some(Cidr(BridgeIP(cidr.value.ip, cidr.value.length), cidr.value.length))
  }

  /** The bytes and the number determine each other. */
  lemma DecodeEncode(v: bv32, ip: IPv4)
    ensures Decode(Encode(v)) == v && Encode(Decode(ip)) == ip
  {
    assert Encode(Decode(ip)) == ip;
  }

  /** The mask as a 32-bit number, which has its first `length` bits set. */
  function Mask32(length: nat): bv32
    requires length <= 32
  {
    if length == 0 then 0 else (0xffff_ffff as bv32) << (32 - length)
  }

  lemma MaskUpTo8(length: nat)
    requires length <= 8
    ensures Decode(Mask(length)) == Mask32(length)
  {
  }

  lemma MaskUpTo16(length: nat)
    requires 8 < length <= 16
    ensures Decode(Mask(length)) == Mask32(length)
  {
  }

  lemma MaskUpTo24(length: nat)
    requires 16 < length <= 24
    ensures Decode(Mask(length)) == Mask32(length)
  {
  }

  lemma MaskUpTo32(length: nat)
    requires 24 < length <= 32
    ensures Decode(Mask(length)) == Mask32(length)
  {
  }

  /** The bytes of the mask are those of the 32-bit mask. */
  lemma MaskIsMask32(length: nat)
    requires length <= 32
    ensures Decode(Mask(length)) == Mask32(length)
  {
    if length <= 8 { MaskUpTo8(length); }
    else if length <= 16 { MaskUpTo16(length); }
    else if length <= 24 { MaskUpTo24(length); }
    else { MaskUpTo32(length); }
  }

  lemma AndIsAnd32(a: IPv4, b: IPv4)
    ensures Decode(And(a, b)) == Decode(a) & Decode(b)
  {
  }

  /** The last byte of the mask tells the longest networks apart. */
  lemma MaskEnds(length: nat)
    requires length <= 32
    ensures Mask(length).b3 & 1 == 0 <==> length <= 31
    ensures Not(Mask(length)) == IPv4(0, 0, 0, 1) <==> length == 31
    ensures length == 32 ==> Mask(length) == IPv4(0xff, 0xff, 0xff, 0xff)
  {
  }

  function Not(a: IPv4): IPv4 {
    IPv4(!a.b0, !a.b1, !a.b2, !a.b3)
  }

  function Or(a: IPv4, b: IPv4): IPv4 {
    IPv4(a.b0 | b.b0, a.b1 | b.b1, a.b2 | b.b2, a.b3 | b.b3)
  }

  lemma NextOfEven(ip: IPv4, m: IPv4)
    requires m.b3 & 1 == 0
    ensures NextIPv4(And(ip, m), 1) == Or(And(ip, m), IPv4(0, 0, 0, 1))
  {
  }

  lemma NextInjective(a: IPv4, b: IPv4)
    ensures NextIPv4(a, 1) == NextIPv4(b, 1) ==> a == b
  {
  }

  lemma EvenPlace(ip: IPv4, m: IPv4, next: IPv4)
    requires m.b3 & 1 == 0
    requires next == Or(And(ip, m), IPv4(0, 0, 0, 1))
    ensures And(next, m) == And(ip, m)
    ensures next == Or(ip, Not(m)) <==> Not(m) == IPv4(0, 0, 0, 1)
  {
  }

  /** An address lies in the network of another if their masked bytes agree. */
  predicate InNetwork(a: IPv4, b: IPv4, length: nat) {
    And(a, Mask(length)) == And(b, Mask(length))
  }

  /** The network's last address: all host bits set. */
  function Broadcast(ip: IPv4, length: nat): IPv4 {
    Or(ip, Not(Mask(length)))
  }

  /** A network of more than one address contains its bridge, which is the last
      address only where there are just two. */
  lemma BridgePlace(ip: IPv4, length: nat)
    requires length <= 31
    ensures InNetwork(BridgeIP(ip, length), ip, length)
    ensures BridgeIP(ip, length) == Broadcast(ip, length) <==> length == 31
  {
    var m := Mask(length);
    MaskEnds(length);
    NextOfEven(ip, m);
    EvenPlace(ip, m, BridgeIP(ip, length));
  }

  /** The bridge of a single-address network lies outside. */
  lemma HostBridgePlace(ip: IPv4)
    ensures !InNetwork(BridgeIP(ip, 32), ip, 32) && BridgeIP(ip, 32) != Broadcast(ip, 32)
  {
    FullMask(ip);
    FullMask(BridgeIP(ip, 32));
    BridgeIsNotTheNetwork(ip, 32);
  }

  lemma FullMask(a: IPv4)
    ensures And(a, Mask(32)) == a && Or(a, Not(Mask(32))) == a
  {
  }

  lemma BridgeIsNotTheNetwork(ip: IPv4, length: nat)
    ensures BridgeIP(ip, length) != And(ip, Mask(length))
  {
  }

  lemma SameBridgeIff(a: IPv4, b: IPv4, length: nat)
    ensures BridgeIP(a, length) == BridgeIP(b, length) <==> InNetwork(a, b, length)
  {
    NextInjective(And(a, Mask(length)), And(b, Mask(length)));
  }

  lemma NextNumber(ip: IPv4)
    ensures Decode(NextIPv4(ip, 1)) == Decode(ip) + 1
  {
    DecodeEncode(Decode(ip) + 1, ip);
  }

  lemma NetworkNumber(ip: IPv4, length: nat)
    requires length <= 32
    ensures Decode(And(ip, Mask(length))) == Decode(ip) & Mask32(length)
  {
    MaskIsMask32(length);
    AndIsAnd32(ip, Mask(length));
  }

  /** As a 32-bit number the bridge is one more than the network address. */
  lemma BridgeNumber(ip: IPv4, length: nat)
    requires length <= 32
    ensures Decode(BridgeIP(ip, length)) == (Decode(ip) & Mask32(length)) + 1
  {
    NetworkNumber(ip, length);
    NextNumber(And(ip, Mask(length)));
  }

  /** A printed number is read as a length exactly if it is one, and leading zeros
      change nothing. */
  lemma LengthOfText(n: nat, zeros: nat)
    ensures ParseLength(Padded(zeros, n)) == if n <= 32 then Some(n) else None
  {
    PaddedValue(zeros, n);
  }

  /** From text to number: what is read from any spelling of an address and length. */
  lemma BridgeOfText(ip: IPv4, digits: string, length: nat)
    requires ParseLength(digits) == Some(length)
    ensures length <= 32
    ensures var r := BridgeIPFromCIDR(AddrText(ip) + "/" + digits);
            && r.Some? && r.value.length == length
            && Decode(r.value.ip) == (Decode(ip) & Mask32(length)) + 1
  {
    CidrIff(AddrText(ip) + "/" + digits, Cidr(ip, length));
    BridgeNumber(ip, length);
  }

  /** The address and length that envbox uses by default. */
  lemma DefaultBridge()
    ensures BridgeIPFromCIDR("172.19.0.1/30") == Some(Cidr(IPv4(172, 19, 0, 1), 30))
  {
    var ip := IPv4(172, 19, 0, 1);
    DefaultTexts(ip);
    LengthOfText(30, 0);
    CidrIff(AddrText(ip) + "/" + "30", Cidr(ip, 30));
  }

  lemma DefaultTexts(ip: IPv4)
    requires ip == IPv4(172, 19, 0, 1)
    ensures AddrText(ip) + "/" + "30" == "172.19.0.1/30" && Padded(0, 30) == "30"
  {
    assert Digits(17) == "17";
    assert OctetText(ip.b0) == "172" && OctetText(ip.b1) == "19" && OctetText(ip.b2) == "0" && OctetText(ip.b3) == "1";
    assert Join(["172", "19", "0", "1"], '.') == "172" + "." + Join(["19", "0", "1"], '.');
    assert Join(["19", "0", "1"], '.') == "19" + "." + Join(["0", "1"], '.');
    JoinTwo("0", "1", '.');
    assert Zeros(0) == "" && Digits(30) == "30";
  }
}

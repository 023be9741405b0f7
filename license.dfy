/** The license file: PKCS#7 padding as section 6.3 of RFC 5652 defines it,
  * the framing of the encrypted payload (a 16-byte IV followed by the
  * ciphertext), the MAC-address normalisation the server applies, the
  * validating variant of the license generator, and the generator's
  * argument checks. AES-CBC, SHA-256 and base64 are parameters or left out;
  * bytes are integers 0..255. */
module License {
  import opened Wrappers
  import opened Text
  import GoTime

  type Byte = b: int | 0 <= b < 256

  /** `aes.BlockSize`, which is also the IV length. */
  const BlockSize: nat := 16

  // ---------------------------------------------------------------------
  // PKCS#7 padding

  /** `pkcs7Padding` as a value: `blockSize - len(data) % blockSize` copies of
    * that count, cut to a byte, appended to the data. */
  function Padded(data: seq<Byte>, blockSize: nat): (r: seq<Byte>)
    requires blockSize > 0
    ensures |r| == (|data| / blockSize + 1) * blockSize
    ensures |data| < |r| <= |data| + blockSize
    ensures r[..|data|] == data
    ensures forall k :: |data| <= k < |r| ==> r[k] == (|r| - |data|) % 256
  {
    var p := blockSize - |data| % blockSize;
    PadAligns(|data|, blockSize);
    var b: Byte := p % 256;
    data + seq(p, _ => b)
  }

  lemma PadAligns(n: nat, bs: nat)
    requires bs > 0
    ensures n + (bs - n % bs) == (n / bs + 1) * bs
  {
  }

  /** With the AES block size the padded data fills whole blocks. */
  lemma PaddedBlocks(data: seq<Byte>)
    ensures |Padded(data, BlockSize)| % BlockSize == 0
  {
  }

  /** `pkcs7Padding`: the pad bytes are written one by one into a fresh
    * buffer. Both the server and the generator use this definition. */
  method Pkcs7Padding(data: seq<Byte>, blockSize: nat) returns (r: seq<Byte>)
    requires blockSize > 0
    ensures r == Padded(data, blockSize)
  {
    var padding := blockSize - |data| % blockSize;
    var padtext := new Byte[padding];
    var b: Byte := padding % 256;
    for i := 0 to padding
      invariant forall k :: 0 <= k < i ==> padtext[k] == b
    {
      padtext[i] := b;
    }
    assert padtext[..] == seq(padding, _ => b);
    r := data + padtext[..];
  }

  const EmptyData := "数据为空"
  const BadPadLength := "填充长度无效"

  /** `pkcs7UnPadding`: only the last byte is read; it must not exceed the
    * length, and that many bytes are cut off. */
  function Pkcs7UnPadding(data: seq<Byte>): (r: Result<seq<Byte>>)
    ensures r.Ok? <==> |data| > 0 && data[|data| - 1] <= |data|
    ensures |data| == 0 ==> r == Err(EmptyData)
    ensures r.Ok? ==> |r.value| == |data| - data[|data| - 1] && r.value == data[..|r.value|]
  {
    if |data| == 0 then Err(EmptyData)
    else
      var unpadding := data[|data| - 1];
      if unpadding > |data| then Err(BadPadLength)
      else Ok(data[..|data| - unpadding])
  }

  /** Unpadding undoes padding for every block size a byte can count. */
  lemma UnpadPad(data: seq<Byte>, blockSize: nat)
    requires 0 < blockSize < 256
    ensures Pkcs7UnPadding(Padded(data, blockSize)) == Ok(data)
  {
    var r := Padded(data, blockSize);
    assert r[|r| - 1] == |r| - |data|;
  }

  /** Only the last byte is checked: the other pad bytes may hold anything,
    * and a last byte of 0 strips nothing. */
  lemma UnpadIsLenient()
    ensures Pkcs7UnPadding([1, 2, 3, 2]) == Ok([1, 2])
    ensures Pkcs7UnPadding([7, 0]) == Ok([7, 0])
    ensures Pkcs7UnPadding([1, 3]) == Err(BadPadLength)
  {
    assert [1, 2, 3, 2][..2] == [1, 2];
    assert [7, 0][..2] == [7, 0];
  }

  // ---------------------------------------------------------------------
  // The encrypted payload

  /** A block cipher mode: CBC encryption or decryption under the fixed key
    * with the given IV. `mode.CryptBlocks` writes exactly as many bytes as
    * it reads. */
  type Crypt = (seq<Byte>, seq<Byte>) -> seq<Byte>

  /** `EncryptLicenseData` before base64: the IV, then the ciphertext of
    * the padded plaintext. */
  function EncryptPayload(plaintext: seq<Byte>, iv: seq<Byte>, encrypt: Crypt): (r: seq<Byte>)
    requires |iv| == BlockSize
    ensures |r| == BlockSize + |encrypt(iv, Padded(plaintext, BlockSize))|
    ensures r[..BlockSize] == iv
    ensures r[BlockSize..] == encrypt(iv, Padded(plaintext, BlockSize))
  {
    var padded := Padded(plaintext, BlockSize);
    iv + encrypt(iv, padded)
  }

  /** A length-preserving cipher yields a payload of whole blocks: the IV
    * block and at least one ciphertext block. */
  lemma PayloadLayout(plaintext: seq<Byte>, iv: seq<Byte>, encrypt: Crypt)
    requires |iv| == BlockSize
    requires forall v, p :: |encrypt(v, p)| == |p|
    ensures var r := EncryptPayload(plaintext, iv, encrypt);
      |r| == BlockSize + |Padded(plaintext, BlockSize)| && |r| % BlockSize == 0 && |r| >= 2 * BlockSize
  {
    var r := EncryptPayload(plaintext, iv, encrypt);
    assert |r| == |iv| + |encrypt(iv, Padded(plaintext, BlockSize))|;
  }

  const ShortData := "加密数据长度不足"
  const BadLength := "加密数据长度不正确"
  const UnpadFailed := "去除填充失败: "

  /** `DecryptLicenseData` after base64: at least an IV, whole blocks after
    * it, and padding that strips. */
  function DecryptPayload(encrypted: seq<Byte>, decrypt: Crypt): (r: Result<seq<Byte>>)
    ensures |encrypted| < BlockSize ==> r == Err(ShortData)
    ensures |encrypted| >= BlockSize && (|encrypted| - BlockSize) % BlockSize != 0 ==> r == Err(BadLength)
    ensures r.Ok? ==> |encrypted| >= BlockSize && |encrypted| % BlockSize == 0
  {
    if |encrypted| < BlockSize then Err(ShortData)
    else
      var iv, cipherData := encrypted[..BlockSize], encrypted[BlockSize..];
      if |cipherData| % BlockSize != 0 then Err(BadLength)
      else
        match Pkcs7UnPadding(decrypt(iv, cipherData))
        case Err(e) => Err(UnpadFailed + e)
        case Ok(p) => Ok(p)
  }

  /** An IV with no ciphertext after it decrypts to nothing, which the
    * unpadding rejects. */
  lemma IvAloneRejected(encrypted: seq<Byte>, decrypt: Crypt)
    requires |encrypted| == BlockSize
    requires forall v, p :: |decrypt(v, p)| == |p|
    ensures DecryptPayload(encrypted, decrypt) == Err(UnpadFailed + EmptyData)
  {
    assert |decrypt(encrypted[..BlockSize], encrypted[BlockSize..])| == 0;
  }

  /** Decrypting an encrypted payload gives back the plaintext when the
    * cipher's decryption inverts its encryption on whole blocks. */
  lemma DecryptEncrypt(plaintext: seq<Byte>, iv: seq<Byte>, encrypt: Crypt, decrypt: Crypt)
    requires |iv| == BlockSize
    requires forall v, p :: |encrypt(v, p)| == |p|
    requires forall v, p :: |p| % BlockSize == 0 ==> decrypt(v, encrypt(v, p)) == p
    ensures DecryptPayload(EncryptPayload(plaintext, iv, encrypt), decrypt) == Ok(plaintext)
  {
    var padded := Padded(plaintext, BlockSize);
    var r := EncryptPayload(plaintext, iv, encrypt);
    PayloadLayout(plaintext, iv, encrypt);
    assert r[..BlockSize] == iv && r[BlockSize..] == encrypt(iv, padded);
    assert decrypt(iv, encrypt(iv, padded)) == padded;
    UnpadPad(plaintext, BlockSize);
  }

  // ---------------------------------------------------------------------
  // MAC addresses

  /** One rune after `strings.ToUpper` and the '-' to ':' replacement. */
  function NormRune(c: char): char
  {
    if c == '-' then ':' else UpperRune(c)
  }

  /** A rune that normalisation leaves alone and keeps. */
  predicate Normal(c: char)
  {
    c != ' ' && c != '-' && !('a' <= c <= 'z')
  }

  function Spaces(s: string): nat
  {
    if |s| == 0 then 0 else (if s[0] == ' ' then 1 else 0) + Spaces(s[1..])
  }

  /** The reference definition of the normalisation, rune by rune: spaces
    * are dropped, '-' becomes ':' and lower-case letters are raised. */
  function Squeeze(s: string): (r: string)
    ensures |r| == |s| - Spaces(s)
    ensures forall i :: 0 <= i < |r| ==> Normal(r[i])
  {
    if |s| == 0 then ""
    else
      var rest := Squeeze(s[1..]);
      if s[0] == ' ' then rest
      else
        assert Normal(NormRune(s[0]));
        [NormRune(s[0])] + rest
  }

  /** A string of normal runes is its own normalisation. */
  lemma {:induction false} SqueezeNormal(s: string)
    requires forall i :: 0 <= i < |s| ==> Normal(s[i])
    ensures Squeeze(s) == s
  {
    if |s| > 0 {
      SqueezeNormal(s[1..]);
      assert s == [s[0]] + s[1..];
    }
  }

  /** The three rewrites the program applies, in its order. */
  function Rewrite(mac: string): string
  {
    ReplaceAll(ReplaceAll(ToUpper(mac), "-", ":"), " ", "")
  }

  /** Replacing a one-rune pattern works rune by rune. */
  lemma ReplaceRuneCons(c: char, rest: string, a: char, b: string)
    ensures ReplaceAll([c] + rest, [a], b) == (if c == a then b else [c]) + ReplaceAll(rest, [a], b)
  {
    var s := [c] + rest;
    assert s[1..] == rest;
    assert HasPrefix(s, [a]) <==> c == a by {
      assert s[0..1] == [c];
    }
  }

  lemma ToUpperCons(c: char, rest: string)
    ensures ToUpper([c] + rest) == [UpperRune(c)] + ToUpper(rest)
  {
    assert ([c] + rest)[1..] == rest;
  }

  /** The rewrites of one rune followed by more text. */
  lemma RewriteCons(c: char, rest: string)
    ensures Rewrite([c] + rest) == (if c == ' ' then "" else [NormRune(c)]) + Rewrite(rest)
  {
    var u := UpperRune(c);
    ToUpperCons(c, rest);
    var t := ToUpper(rest);
    ReplaceRuneCons(u, t, '-', ":");
    var x := if u == '-' then ':' else u;
    assert (if u == '-' then ":" else [u]) == [x];
    var t2 := ReplaceAll(t, "-", ":");
    ReplaceRuneCons(x, t2, ' ', "");
  }

  /** The rewrites are the rune-by-rune normalisation. */
  lemma {:induction false} RewriteSqueeze(s: string)
    ensures Rewrite(s) == Squeeze(s)
  {
    if |s| > 0 {
      RewriteSqueeze(s[1..]);
      RewriteCons(s[0], s[1..]);
      assert s == [s[0]] + s[1..];
    }
  }

  /** `NormalizeMacAddress`: no shape check, only the rewrites. */
  function NormalizeMac(mac: string): (r: string)
    ensures mac == "" ==> r == ""
    ensures r == Squeeze(mac)
  {
    if mac == "" then ""
    else
      RewriteSqueeze(mac);
      Rewrite(mac)
  }

  /** Normalising twice is normalising once. */
  lemma NormalizeIdempotent(mac: string)
    ensures NormalizeMac(NormalizeMac(mac)) == NormalizeMac(mac)
  {
    SqueezeNormal(Squeeze(mac));
  }

  predicate UpperHex(c: char)
  {
    ('0' <= c <= '9') || ('A' <= c <= 'F')
  }

  /** "XX:XX:XX:XX:XX:XX" with upper-case hex digits. */
  predicate WellFormedMac(m: string)
  {
    |m| == 17 && forall i :: 0 <= i < 17 ==> if i % 3 == 2 then m[i] == ':' else UpperHex(m[i])
  }

  predicate HexPair(p: string)
  {
    |p| == 2 && UpperHex(p[0]) && UpperHex(p[1])
  }

  /** The generator's `normalizeMacAddress`: the same rewrites, then the
    * length, the six ':'-separated parts and their hex digits are checked,
    * and "" stands for a rejected address. */
  function ValidateMac(mac: string): (r: string)
    ensures r == "" || |r| == 17
    ensures mac == "" ==> r == ""
  {
    if mac == "" then ""
    else
      var m := Rewrite(mac);
      if |m| != 17 then ""
      else
        var parts := Split(m, ':');
        if |parts| != 6 then ""
        else if forall k :: 0 <= k < 6 ==> HexPair(parts[k]) then m
        else ""
  }

  /** Joining two-rune parts puts the separator at every third position. */
  lemma {:induction false} JoinPairs(parts: seq<string>, sep: char)
    requires |parts| >= 1
    requires forall k :: 0 <= k < |parts| ==> |parts[k]| == 2
    ensures |Join(parts, sep)| == 3 * |parts| - 1
    ensures forall i :: 0 <= i < 3 * |parts| - 1 ==>
      Join(parts, sep)[i] == if i % 3 == 2 then sep else parts[i / 3][i % 3]
  {
    if |parts| > 1 {
      var rest := parts[1..];
      JoinPairs(rest, sep);
      var j := Join(parts, sep);
      assert j == parts[0] + [sep] + Join(rest, sep);
      forall i | 3 <= i < 3 * |parts| - 1
        ensures j[i] == if i % 3 == 2 then sep else parts[i / 3][i % 3]
      {
        assert j[i] == Join(rest, sep)[i - 3];
        assert (i - 3) % 3 == i % 3 && (i - 3) / 3 == i / 3 - 1;
      }
    }
  }

  /** Six hex pairs joined by ':' form a well-formed address. */
  lemma JoinWellFormed(parts: seq<string>)
    requires |parts| == 6 && forall k :: 0 <= k < 6 ==> HexPair(parts[k])
    ensures WellFormedMac(Join(parts, ':'))
  {
    JoinPairs(parts, ':');
    var j := Join(parts, ':');
    forall i | 0 <= i < 17 ensures if i % 3 == 2 then j[i] == ':' else UpperHex(j[i]) {
      if i % 3 != 2 {
        assert HexPair(parts[i / 3]);
      }
    }
  }

  /** An accepted address is well formed and is the normalised input. */
  lemma ValidateSound(mac: string)
    requires ValidateMac(mac) != ""
    ensures WellFormedMac(ValidateMac(mac)) && ValidateMac(mac) == NormalizeMac(mac)
  {
    RewriteSqueeze(mac);
    JoinWellFormed(Split(Rewrite(mac), ':'));
  }

  /** The six two-rune parts of a well-formed address. */
  function Pairs(m: string): (parts: seq<string>)
    requires WellFormedMac(m)
    ensures |parts| == 6 && forall k :: 0 <= k < 6 ==> HexPair(parts[k]) && ':' !in parts[k]
  {
    var parts := seq(6, k requires 0 <= k < 6 => m[3 * k..3 * k + 2]);
    assert forall k :: 0 <= k < 6 ==> parts[k][0] == m[3 * k] && parts[k][1] == m[3 * k + 1];
    parts
  }

  /** A well-formed address splits into its six parts. */
  lemma SplitWellFormed(m: string)
    requires WellFormedMac(m)
    ensures Split(m, ':') == Pairs(m)
  {
    var parts := Pairs(m);
    JoinPairs(parts, ':');
    var j := Join(parts, ':');
    forall i | 0 <= i < 17 ensures j[i] == m[i] {
      if i % 3 != 2 {
        assert parts[i / 3] == m[3 * (i / 3)..3 * (i / 3) + 2];
        assert parts[i / 3][i % 3] == m[3 * (i / 3) + i % 3];
      }
    }
    assert j == m;
    SplitJoin(parts, ':');
  }

  /** An address whose normalisation is well formed is accepted. */
  lemma ValidateComplete(mac: string)
    requires mac != "" && WellFormedMac(NormalizeMac(mac))
    ensures ValidateMac(mac) == NormalizeMac(mac)
  {
    RewriteSqueeze(mac);
    SplitWellFormed(Rewrite(mac));
  }

  /** The generator accepts exactly the non-empty addresses whose
    * normalisation is well formed, and then returns that normalisation. */
  lemma ValidateMacSpec(mac: string)
    ensures ValidateMac(mac) != "" <==> mac != "" && WellFormedMac(NormalizeMac(mac))
    ensures ValidateMac(mac) != "" ==> ValidateMac(mac) == NormalizeMac(mac)
  {
    if ValidateMac(mac) != "" {
      ValidateSound(mac);
    } else if mac != "" && WellFormedMac(NormalizeMac(mac)) {
      ValidateComplete(mac);
    }
  }

  /** Validating an accepted address again returns it unchanged. */
  lemma ValidateIdempotent(mac: string)
    requires ValidateMac(mac) != ""
    ensures ValidateMac(ValidateMac(mac)) == ValidateMac(mac)
  {
    var r := ValidateMac(mac);
    ValidateSound(mac);
    assert forall i :: 0 <= i < |r| ==> Normal(r[i]) by {
      forall i | 0 <= i < |r| ensures Normal(r[i]) {
        if i % 3 != 2 { assert UpperHex(r[i]); }
      }
    }
    SqueezeNormal(r);
    ValidateComplete(r);
  }

  // ---------------------------------------------------------------------
  // The generator's arguments

  datatype LicenseInfo = LicenseInfo(expireDate: string, macAddress: string, issueDate: string)

  /** Parses under the generator's `DateFormat`, "2006-01-02". */
  predicate IsDate(s: string)
  {
    GoTime.Parse(GoTime.L_Date, s).Some?
  }

  const NoExpire := "必须指定到期日期 (-expire)"
  const NoMac := "必须指定MAC地址 (-mac)"
  const BadExpire := "到期日期格式不正确"
  const BadMac := "MAC地址格式不正确"
  const BadIssue := "签发日期格式不正确"

  /** The checks of the generator's `main`, in its order, and the license
    * fields they produce; `today` is the current date as the generator
    * formats it. */
  function GeneratorArgs(expire: string, mac: string, issue: string, today: string): (r: Result<LicenseInfo>)
    ensures r.Ok? <==> expire != "" && mac != "" && IsDate(expire) && ValidateMac(mac) != ""
                       && (issue == "" || IsDate(issue))
    ensures expire == "" ==> r == Err(NoExpire)
    ensures expire != "" && mac == "" ==> r == Err(NoMac)
    ensures r.Ok? ==> r.value.expireDate == expire && IsDate(expire)
    ensures r.Ok? ==> WellFormedMac(r.value.macAddress) && r.value.macAddress == NormalizeMac(mac)
    ensures r.Ok? ==> r.value.issueDate == (if issue == "" then today else issue)
  {
    if expire == "" then Err(NoExpire)
    else if mac == "" then Err(NoMac)
    else if !IsDate(expire) then Err(BadExpire)
    else
      var m := ValidateMac(mac);
      if m == "" then Err(BadMac)
      else
        ValidateSound(mac);
        if issue == "" then Ok(LicenseInfo(expire, m, today))
        else if !IsDate(issue) then Err(BadIssue)
        else Ok(LicenseInfo(expire, m, issue))
  }
}

/** Canonical forms of transaction hashes and addresses. */
module Identity {
  import opened Ledger
  import opened Text

  predicate IsEVMChain(chain: Chain) {
    chain == Base || chain == Ethereum || chain == Polygon || chain == Arbitrum || chain == BSC
  }

  function WithoutPrefix(s: string): string {
    TrimPrefix(TrimPrefix(s, "0x"), "0X")
  }

  predicate Prefixed(s: string) {
    HasPrefix(s, "0x") || HasPrefix(s, "0X")
  }

  function EVMForm(trimmed: string): string {
    if IsHexString(WithoutPrefix(trimmed)) || Prefixed(trimmed) then "0x" + ToLower(WithoutPrefix(trimmed)) else trimmed
  }

  function CanonicalSignatureIdentity(chain: Chain, hash: string): string {
    var trimmed := TrimSpace(hash);
    if trimmed == "" then ""
    else if chain == BTC then ToLower(WithoutPrefix(trimmed))
    else if !IsEVMChain(chain) then trimmed
    else if WithoutPrefix(trimmed) == "" then ""
    else EVMForm(trimmed)
  }

  /** Canonicalizing the identity again changes nothing. */
  predicate Stable(chain: Chain, hash: string) {
    CanonicalSignatureIdentity(chain, CanonicalSignatureIdentity(chain, hash)) ==
      CanonicalSignatureIdentity(chain, hash)
  }

  function CanonicalAddressIdentity(chain: Chain, address: string): string {
    var trimmed := TrimSpace(address);
    if trimmed == "" then ""
    else if !IsEVMChain(chain) then trimmed
    else if WithoutPrefix(trimmed) == "" then trimmed
    else EVMForm(trimmed)
  }

  lemma WithoutPrefixIsSuffix(s: string)
    ensures |WithoutPrefix(s)| <= |s| && WithoutPrefix(s) == s[|s| - |WithoutPrefix(s)|..]
  {
  }

  /** A canonical EVM form strips back to its lower-case body. */
  lemma PrefixedBody(body: string)
    requires body != ""
    ensures WithoutPrefix("0x" + ToLower(body)) == ToLower(body)
    ensures Prefixed("0x" + ToLower(body))
  {
    var s := "0x" + ToLower(body);
    assert s[..2] == "0x" && s[2..] == ToLower(body);
    if |body| >= 2 { assert ToLower(body)[1] == Lower(body[1]) != 'X'; }
  }

  lemma PrefixedIsTrimmed(trimmed: string)
    requires Trimmed(trimmed) && WithoutPrefix(trimmed) != ""
    ensures Trimmed("0x" + ToLower(WithoutPrefix(trimmed)))
  {
    var body := WithoutPrefix(trimmed);
    WithoutPrefixIsSuffix(trimmed);
    assert body[|body| - 1] == trimmed[|trimmed| - 1];
    LowerSpace(body, |body| - 1);
  }

  lemma EVMFormTwice(trimmed: string)
    requires Trimmed(trimmed) && trimmed != "" && WithoutPrefix(trimmed) != ""
    ensures
      var once := EVMForm(trimmed);
      Trimmed(once) && once != "" && WithoutPrefix(once) != "" && EVMForm(once) == once
  {
    var body := WithoutPrefix(trimmed);
    if IsHexString(body) || Prefixed(trimmed) {
      PrefixedBody(body);
      PrefixedIsTrimmed(trimmed);
      LowerTwice(body);
    }
  }

  /** Off BTC, canonicalizing a canonical identity changes nothing, whatever the input. */
  lemma IdentityIdempotent(chain: Chain, hash: string)
    requires chain != BTC
    ensures Stable(chain, hash)
  {
    var trimmed := TrimSpace(hash);
    if IsEVMChain(chain) && trimmed != "" && WithoutPrefix(trimmed) != "" { EVMFormTwice(trimmed); }
  }

  lemma AddressIdempotent(chain: Chain, address: string)
    ensures CanonicalAddressIdentity(chain, CanonicalAddressIdentity(chain, address)) ==
      CanonicalAddressIdentity(chain, address)
  {
    var trimmed := TrimSpace(address);
    if IsEVMChain(chain) && trimmed != "" && WithoutPrefix(trimmed) != "" { EVMFormTwice(trimmed); }
  }

  /** The part of a BTC hash that is kept, before case folding. */
  function BTCBody(hash: string): string {
    WithoutPrefix(TrimSpace(hash))
  }

  /** What a caller can check: the body shows neither another prefix nor white space in front. */
  predicate Settled(body: string) {
    body != "" ==> !IsSpace(body[0]) && !HasPrefix(ToLower(body), "0x")
  }

  lemma BTCForm(hash: string)
    ensures CanonicalSignatureIdentity(BTC, hash) == ToLower(BTCBody(hash))
    ensures BTCBody(hash) != "" ==> !IsSpace(BTCBody(hash)[|BTCBody(hash)| - 1])
  {
    LastOfBody(TrimSpace(hash));
    LowerEmpty();
  }

  lemma LowerEmpty()
    ensures ToLower(WithoutPrefix("")) == ""
  {
  }

  lemma LastOfBody(s: string)
    ensures WithoutPrefix(s) != "" ==> s != "" && WithoutPrefix(s)[|WithoutPrefix(s)| - 1] == s[|s| - 1]
  {
    WithoutPrefixIsSuffix(s);
  }

  /** A lower-case string with no space in front loses nothing but a "0x". */
  lemma LowerWithoutPrefix(body: string)
    ensures WithoutPrefix(ToLower(body)) == ToLower(body) <==> !HasPrefix(ToLower(body), "0x")
  {
    var once := ToLower(body);
    if |once| >= 2 {
      assert once[1] == Lower(body[1]) != 'X';
      assert once[..2][1] == once[1] && "0X"[1] == 'X';
    }
    if HasPrefix(once, "0x") { WithoutPrefixIsSuffix(once[2..]); }
  }

  lemma BTCTwice(body: string)
    requires body != "" && !IsSpace(body[|body| - 1])
    ensures ToLower(BTCBody(ToLower(body))) == ToLower(body) <==> Settled(body)
  {
    var once := ToLower(body);
    LowerSpace(body, |body| - 1);
    LowerSpace(body, 0);
    if IsSpace(body[0]) {
      assert |TrimSpace(once)| < |once|;
      WithoutPrefixIsSuffix(TrimSpace(once));
    } else {
      assert TrimSpace(once) == once;
      LowerWithoutPrefix(body);
      LowerTwice(body);
      WithoutPrefixIsSuffix(once);
      if HasPrefix(once, "0x") { assert |WithoutPrefix(once)| < |once|; }
    }
  }

  /** On BTC canonicalization is idempotent exactly on the hashes whose body is settled. */
  lemma BTCIdempotentExactly(hash: string)
    ensures Stable(BTC, hash) <==> Settled(BTCBody(hash))
  {
    BTCForm(hash);
    BTCForm(ToLower(BTCBody(hash)));
    if BTCBody(hash) != "" { BTCTwice(BTCBody(hash)); }
  }

  /** Hexadecimal bodies are settled. */
  lemma HexIsSettled(body: string)
    requires IsHexString(body)
    ensures Settled(body)
  {
    if |body| >= 2 {
      assert ToLower(body)[1] == Lower(body[1]) && IsHexDigit(body[1]);
      assert ToLower(body)[..2][1] == ToLower(body)[1] && "0x"[1] == 'x';
    }
    if body != "" { assert IsHexDigit(body[0]); }
  }

  /** Two inputs that canonicalization on BTC takes in two steps. */
  lemma BTCNotIdempotent()
    ensures !Stable(BTC, "0X0x12") && !Stable(BTC, "0x 12")
  {
    UnsettledBodies();
    BTCIdempotentExactly("0X0x12");
    BTCIdempotentExactly("0x 12");
  }

  lemma UnsettledBodies()
    ensures !Settled(BTCBody("0X0x12")) && !Settled(BTCBody("0x 12"))
  {
    assert Trimmed("0X0x12") && Trimmed("0x 12");
    assert "0X0x12"[..2][1] == 'X' && "0x"[1] == 'x';
    assert "0X0x12"[2..] == "0x12" && "0x 12"[2..] == " 12";
    assert WithoutPrefix("0X0x12") == "0x12" && WithoutPrefix("0x 12") == " 12";
    assert ToLower("0x12")[..2] == "0x";
  }

  lemma StripHexPrefix(p: string, body: string)
    requires (p == "" || p == "0x" || p == "0X") && IsHexString(body) && body != ""
    ensures WithoutPrefix(p + body) == body && Trimmed(p + body)
  {
    assert (p + body)[..|p|] == p && (p + body)[|p|..] == body;
    assert IsHexDigit(body[0]) && IsHexDigit(body[|body| - 1]);
    assert |body| >= 2 ==> IsHexDigit(body[1]);
    assert p == "" ==> p + body == body;
  }

  lemma SpelledForm(chain: Chain, p: string, body: string)
    requires IsEVMChain(chain) || chain == BTC
    requires (p == "" || p == "0x" || p == "0X") && IsHexString(body) && body != ""
    ensures CanonicalSignatureIdentity(chain, p + body) == if chain == BTC then ToLower(body) else "0x" + ToLower(body)
  {
    StripHexPrefix(p, body);
    assert p + body != "" && TrimSpace(p + body) == p + body;
  }

  /**
   * What canonicalization is for: on EVM and BTC two spellings of a hexadecimal hash, with or without
   * prefix and in any letter case, have one identity exactly when their digits agree up to case.
   */
  lemma SpellingsAgree(chain: Chain, p: string, body: string, p': string, body': string)
    requires IsEVMChain(chain) || chain == BTC
    requires (p == "" || p == "0x" || p == "0X") && IsHexString(body) && body != ""
    requires (p' == "" || p' == "0x" || p' == "0X") && IsHexString(body') && body' != ""
    ensures CanonicalSignatureIdentity(chain, p + body) == CanonicalSignatureIdentity(chain, p' + body')
       <==> ToLower(body) == ToLower(body')
  {
    SpelledForm(chain, p, body);
    SpelledForm(chain, p', body');
    assert ("0x" + ToLower(body))[2..] == ToLower(body) && ("0x" + ToLower(body'))[2..] == ToLower(body');
  }

  /** Off EVM and BTC a hash is compared exactly as written, apart from white space around it. */
  lemma PlainIdentity(chain: Chain, hash: string, hash': string)
    requires !IsEVMChain(chain) && chain != BTC
    ensures CanonicalSignatureIdentity(chain, hash) == CanonicalSignatureIdentity(chain, hash') <==>
            TrimSpace(hash) == TrimSpace(hash')
  {
  }

  lemma SpelledAddress(chain: Chain, p: string, body: string)
    requires IsEVMChain(chain)
    requires (p == "" || p == "0x" || p == "0X") && IsHexString(body) && body != ""
    ensures CanonicalAddressIdentity(chain, p + body) == "0x" + ToLower(body)
  {
    StripHexPrefix(p, body);
    assert p + body != "" && TrimSpace(p + body) == p + body;
  }

  /** On EVM chains two spellings of a hexadecimal address are one exactly when their digits agree up to case. */
  lemma AddressSpellingsAgree(chain: Chain, p: string, body: string, p': string, body': string)
    requires IsEVMChain(chain)
    requires (p == "" || p == "0x" || p == "0X") && IsHexString(body) && body != ""
    requires (p' == "" || p' == "0x" || p' == "0X") && IsHexString(body') && body' != ""
    ensures CanonicalAddressIdentity(chain, p + body) == CanonicalAddressIdentity(chain, p' + body')
       <==> ToLower(body) == ToLower(body')
  {
    SpelledAddress(chain, p, body);
    SpelledAddress(chain, p', body');
    assert ("0x" + ToLower(body))[2..] == ToLower(body) && ("0x" + ToLower(body'))[2..] == ToLower(body');
  }

  /** Elsewhere an address is compared exactly as written, apart from white space around it. */
  lemma PlainAddress(chain: Chain, address: string, address': string)
    requires !IsEVMChain(chain)
    ensures CanonicalAddressIdentity(chain, address) == CanonicalAddressIdentity(chain, address') <==>
            TrimSpace(address) == TrimSpace(address')
  {
  }
}

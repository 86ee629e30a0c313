/**
 * The JSON Web Token library (RFC 7519) as the middleware sees it, in the ideal-signature
 * style: a string carries a valid signature under a kind's secret exactly when the server
 * signed it for that kind, which the `issued` registry records together with the claims.
 * No cryptography is modelled. Signing stamps each token with a generation number drawn
 * from a counter, so that every issued token differs from every earlier one.
 */
module Jwt {
  import opened Base

  /** Token class; each has its own secret and lifetime, never mixed. */
  datatype Kind = Access | Refresh

  type Token = string

  /** The payload a signed token carries: its class, the subject `_id`, the generation
      it was signed in and the expiry instant (`exp`, in seconds). */
  datatype Claims = Claims(kind: Kind, sub: UserId, gen: nat, exp: int)

  /** What `jwt.verify` yields: the payload's subject, a `TokenExpiredError`, or any other
      failure (bad signature, wrong secret, bad shape) with the library's message. */
  datatype Decoded = Verified(sub: UserId) | Expired | Malformed(message: string)

  /** The library's message for a token whose signature does not check out. */
  const INVALID_SIGNATURE := "invalid signature"

  function KindTag(kind: Kind): char {
    if kind == Access then 'A' else 'R'
  }

  /** The text of a signed token: the kind tag, the generation in unary, a separator and
      the subject. */
  function Mint(kind: Kind, sub: UserId, gen: nat): Token {
    [KindTag(kind)] + seq(gen, _ => '#') + ['.'] + sub
  }

  /** The separator of a minted token stands right after the generation marks. */
  lemma MintSeparatorAt(kind: Kind, sub: UserId, gen: nat)
    ensures Mint(kind, sub, gen)[gen + 1] == '.'
    ensures forall other: Kind, s: UserId, g: nat :: gen < g ==> Mint(other, s, g)[gen + 1] == '#'
  {
  }

  /** Distinct claims give distinct token texts. */
  lemma MintInjective(k1: Kind, s1: UserId, g1: nat, k2: Kind, s2: UserId, g2: nat)
    requires Mint(k1, s1, g1) == Mint(k2, s2, g2)
    ensures k1 == k2 && s1 == s2 && g1 == g2
  {
    if g1 < g2 {
      MintSeparatorAt(k1, s1, g1);
      assert false;
    } else if g2 < g1 {
      MintSeparatorAt(k2, s2, g2);
      assert false;
    }
    assert KindTag(k1) == Mint(k1, s1, g1)[0];
    assert s1 == Mint(k1, s1, g1)[g1 + 2..];
  }

  /** The signing side: every token signed so far, and the next generation number. */
  datatype Signer = Signer(issued: map<Token, Claims>, next: nat) {

    /** Every registered token is the text of its own claims, from an earlier generation. */
    ghost predicate Valid() {
      forall t :: t in issued ==>
        issued[t].gen < next && t == Mint(issued[t].kind, issued[t].sub, issued[t].gen)
    }

    /** `jwt.verify(token, secretOf(kind))`: the signature is checked first, then expiry
        (`now >= exp` is expired, as the library compares). */
    function Decode(kind: Kind, token: Token, now: int): (r: Decoded)
      ensures r.Verified? <==> token in issued && issued[token].kind == kind && now < issued[token].exp
      ensures r.Verified? ==> r.sub == issued[token].sub
      ensures r.Expired? <==> token in issued && issued[token].kind == kind && issued[token].exp <= now
      ensures r.Malformed? ==> r.message == INVALID_SIGNATURE
      ensures token in issued && issued[token].kind != kind ==> r.Malformed?
    {
      if token in issued && issued[token].kind == kind then
        if now < issued[token].exp then Verified(issued[token].sub) else Expired
      else Malformed(INVALID_SIGNATURE)
    }

    /** `jwt.sign({ _id: sub }, secretOf(kind), { expiresIn: ttl })` at time `now`. */
    function Issue(kind: Kind, sub: UserId, now: int, ttl: nat): (r: (Signer, Token))
      requires Valid()
      ensures r.0.Valid()
      ensures r.1 !in issued
      ensures r.1 in r.0.issued && r.0.issued == issued[r.1 := r.0.issued[r.1]]
      ensures r.0.Decode(kind, r.1, now) == if ttl > 0 then Verified(sub) else Expired
      ensures forall k: Kind, t: Token, time: int :: t in issued ==> r.0.Decode(k, t, time) == Decode(k, t, time)
    {
      var t := Mint(kind, sub, next);
      assert t !in issued by {
        if t in issued {
          MintInjective(kind, sub, next, issued[t].kind, issued[t].sub, issued[t].gen);
        }
      }
      (Signer(issued[t := Claims(kind, sub, next, now + ttl)], next + 1), t)
    }
  }

  /** A token signed for one class never verifies under the other class's secret. */
  lemma SecretsNotMixed(s: Signer, t: Token, now: int)
    ensures s.Decode(Access, t, now).Malformed? || s.Decode(Refresh, t, now).Malformed?
  {
  }

  /** Expiry is final: a token expired at `now` is expired at every later instant, and one
      verified at `now` was verified, for the same subject, at every earlier instant. */
  lemma ExpiryIsFinal(s: Signer, kind: Kind, t: Token, now: int, later: int)
    requires now <= later
    ensures s.Decode(kind, t, now).Expired? ==> s.Decode(kind, t, later).Expired?
    ensures s.Decode(kind, t, later).Verified? ==> s.Decode(kind, t, now) == s.Decode(kind, t, later)
  {
  }

  /** A string the server never signed is always classified as a bad signature, never as
      expired. */
  lemma ForgedTokenMalformed(s: Signer, kind: Kind, t: Token, now: int)
    requires t !in s.issued
    ensures s.Decode(kind, t, now) == Malformed(INVALID_SIGNATURE)
  {
  }
}

/**
 * The side a process runs as (drossy.stars.api.Side): a dedicated server,
 * a client, or the invalid value produced when a command-line token is not
 * recognised.
 */
module Sides {

  datatype Side = Server | Client | Unknown {

    /** True exactly for the client side; false for the other two values. */
    predicate IsClient()
      ensures IsClient() <==> this != Server && this != Unknown
    {
      this == Client
    }

    /** True exactly for the server side; false for the other two values. */
    predicate IsServer()
      ensures IsServer() <==> this != Client && this != Unknown
    {
      this == Server
    }

    /** True exactly for the invalid side; false for the other two values. */
    predicate IsUnknown()
      ensures IsUnknown() <==> this != Server && this != Client
    {
      this == Unknown
    }
  }

  /** Lower-cases one character (ASCII letters only). */
  function LowerChar(c: char): (l: char)
    ensures 'A' <= c <= 'Z' ==> 'a' <= l <= 'z' && l as int - c as int == 32
    ensures !('A' <= c <= 'Z') ==> l == c
  {
    if 'A' <= c <= 'Z' then (c as int + 32) as char else c
  }

  /** String.toLowerCase, restricted to ASCII letters. */
  function ToLower(s: string): (r: string)
    ensures |r| == |s|
    ensures forall i :: 0 <= i < |s| ==> r[i] == LowerChar(s[i])
  {
    if s == [] then [] else [LowerChar(s[0])] + ToLower(s[1..])
  }

  /** Equality after lower-casing each character on both sides. */
  predicate LowerEquals(a: string, b: string)
  {
    |a| == |b| && forall i :: 0 <= i < |a| ==> LowerChar(a[i]) == LowerChar(b[i])
  }

  /** A string lower-cases to a lower-case word exactly when the two are equal character by character after lower-casing. */
  lemma LowerMatchesLowerEquals(s: string, word: string)
    requires ToLower(word) == word
    ensures ToLower(s) == word <==> LowerEquals(s, word)
  {
    if LowerEquals(s, word) {
      assert forall i :: 0 <= i < |s| ==> ToLower(s)[i] == word[i] by {
        forall i | 0 <= i < |s| ensures ToLower(s)[i] == word[i] {
          assert LowerChar(word[i]) == ToLower(word)[i];
        }
      }
    }
    if ToLower(s) == word {
      forall i | 0 <= i < |s| ensures LowerChar(s[i]) == LowerChar(word[i]) {
        assert LowerChar(word[i]) == ToLower(word)[i];
      }
    }
  }

  /**
   * The converter used for the "-side" option: "server" and "client",
   * in any mix of ASCII upper and lower case, are recognised; every other token is Unknown.
   */
  function Convert(token: string): (r: Side)
    ensures r.IsServer() <==> LowerEquals(token, "server")
    ensures r.IsClient() <==> LowerEquals(token, "client")
    ensures r.IsUnknown() <==> !LowerEquals(token, "server") && !LowerEquals(token, "client")
  {
    LowerMatchesLowerEquals(token, "server");
    LowerMatchesLowerEquals(token, "client");
    var lowered := ToLower(token);
    if lowered == "server" then Server
    else if lowered == "client" then Client
    else Unknown
  }

  /** Lower-casing twice is lower-casing once. */
  lemma ToLowerIdempotent(s: string)
    ensures ToLower(ToLower(s)) == ToLower(s)
  {
    var once := ToLower(s);
    assert forall i :: 0 <= i < |s| ==> ToLower(once)[i] == once[i];
  }

  /** The result of Convert depends only on the lower-cased token. */
  lemma ConvertIgnoresCase(token: string)
    ensures Convert(ToLower(token)) == Convert(token)
  {
    ToLowerIdempotent(token);
  }

  /** Every side satisfies exactly one of the three predicates. */
  lemma ExactlyOneKind(s: Side)
    ensures s.IsClient() || s.IsServer() || s.IsUnknown()
    ensures !(s.IsClient() && s.IsServer())
    ensures !(s.IsClient() && s.IsUnknown())
    ensures !(s.IsServer() && s.IsUnknown())
  {
  }

  /** Sample tokens: three spellings of "server", two of "client", a bogus token and the empty token. */
  lemma ConvertExamples()
    ensures Convert("server") == Server
    ensures Convert("SERVER") == Server
    ensures Convert("Server") == Server
    ensures Convert("client") == Client
    ensures Convert("CLIENT") == Client
    ensures Convert("bogus") == Unknown
    ensures Convert("") == Unknown
  {
    assert LowerEquals("SERVER", "server");
    assert LowerEquals("Server", "server");
    assert LowerEquals("CLIENT", "client");
    assert !LowerEquals("bogus", "server") && !LowerEquals("bogus", "client");
  }
}

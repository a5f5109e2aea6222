/**
 * The two-token boolean codec that the yes/no field and the ja/nein validator share:
 * a vocabulary gives one canonical token per truth value and the set of aliases
 * (compared after lower-casing) that decode to it.
 */
module BooleanCodec {
  import opened Wrappers
  import opened Text

  datatype Vocabulary = Vocabulary(
    affirmative: string,          // the token stored or emitted for true
    negative: string,             // the token stored or emitted for false
    affirmativeAliases: set<string>,
    negativeAliases: set<string>)

  /** The canonical tokens are lower-case aliases of their own truth value, and no alias is ambiguous. */
  predicate WellFormed(v: Vocabulary)
  {
    && v.affirmative in v.affirmativeAliases
    && v.negative in v.negativeAliases
    && IsLowerCase(v.affirmative)
    && IsLowerCase(v.negative)
    && v.affirmativeAliases !! v.negativeAliases
  }

  /** The yes/no vocabulary of the stored `str_bool` column (api/core/serializer_fields.py). */
  const YesNo := Vocabulary("yes", "no", {"yes", "true", "1"}, {"no", "false", "0"})

  /** The ja/nein vocabulary of the `test_bool` field (api/user/serializers.py). */
  const JaNein := Vocabulary("ja", "nein", {"ja"}, {"nein"})

  /**
   * Reads a token, ignoring case: an affirmative alias is true, a negative alias false,
   * anything else is not a token of the vocabulary. The affirmative aliases are tried first.
   */
  function Decode(v: Vocabulary, token: string): (r: Option<bool>)
    ensures r == Some(true) <==> Lower(token) in v.affirmativeAliases
    ensures r == Some(false) <==> Lower(token) !in v.affirmativeAliases && Lower(token) in v.negativeAliases
    ensures r == None <==> Lower(token) !in v.affirmativeAliases + v.negativeAliases
  {
    var t := Lower(token);
    if t in v.affirmativeAliases then Some(true)
    else if t in v.negativeAliases then Some(false)
    else None
  }

  /** The canonical token of a truth value. */
  function Encode(v: Vocabulary, b: bool): (token: string)
    ensures b ==> token == v.affirmative
    ensures !b ==> token == v.negative
  {
    if b then v.affirmative else v.negative
  }

  /** Decoding an encoded value gives the value back. */
  lemma DecodeEncode(v: Vocabulary, b: bool)
    requires WellFormed(v)
    ensures Decode(v, Encode(v, b)) == Some(b)
  {
    LowerIsLowerCase(Encode(v, b));
  }

  /** Decoding ignores case. */
  lemma DecodeIgnoresCase(v: Vocabulary, s: string, t: string)
    requires Lower(s) == Lower(t)
    ensures Decode(v, s) == Decode(v, t)
  {
  }

  /** On a vocabulary without aliases, a token decodes exactly when it lower-cases to a canonical token. */
  lemma DecodeWithoutAliases(v: Vocabulary, token: string)
    requires WellFormed(v)
    requires v.affirmativeAliases == {v.affirmative} && v.negativeAliases == {v.negative}
    ensures Decode(v, token).Some? ==> Encode(v, Decode(v, token).value) == Lower(token)
  {
  }

  /** Both vocabularies of the system are well formed. */
  lemma VocabulariesWellFormed()
    ensures WellFormed(YesNo)
    ensures WellFormed(JaNein)
  {
    assert "yes" != "no" && "yes" != "false" && "yes" != "0";
    assert "true" != "no" && "true" != "false" && "true" != "0";
    assert "1" != "no" && "1" != "false" && "1" != "0";
  }
}

/** What the handlers rely on from MongoDB and Mongoose themselves: ObjectIds and `findById`. */
module Mongo {
  import opened Wrappers
  import opened Text

  predicate IsHexDigit(c: char) {
    IsDigit(c) || 'a' <= c <= 'f' || 'A' <= c <= 'F'
  }

  predicate IsLowerHexDigit(c: char) {
    IsDigit(c) || 'a' <= c <= 'f'
  }

  /** A text Mongoose casts to an ObjectId: 24 hexadecimal digits. */
  predicate IsObjectIdText(s: string) {
    |s| == 24 && forall i | 0 <= i < |s| :: IsHexDigit(s[i])
  }

  /** The form `ObjectId.toString()` prints: 24 lower-case hexadecimal digits. */
  predicate IsCanonicalId(s: string) {
    |s| == 24 && forall i | 0 <= i < |s| :: IsLowerHexDigit(s[i])
  }

  /** A stored document id, as `_id.toString()` prints it. */
  type ObjectId = s: string | IsCanonicalId(s) witness "000000000000000000000000"

  function LowerHex(c: char): (r: char)
    requires IsHexDigit(c)
    ensures IsLowerHexDigit(r)
    ensures IsLowerHexDigit(c) ==> r == c
  {
    if 'A' <= c <= 'F' then (c as int - 'A' as int + 'a' as int) as char else c
  }

  /** Mongoose's cast of a text to an ObjectId; `None` is a CastError. */
  function CastObjectId(s: string): (r: Option<ObjectId>)
    ensures r.Some? <==> IsObjectIdText(s)
    ensures r.Some? ==> |r.value| == |s|
    ensures IsCanonicalId(s) ==> r == Some(s)
  {
    if IsObjectIdText(s) then
      var lowered := seq(|s|, i requires 0 <= i < |s| => LowerHex(s[i]));
      assert IsCanonicalId(s) ==> lowered == s;
      Some(lowered)
    else None
  }

  /**
   * `Model.findById(id)`: the position of the first document with that id, no
   * document (`null`), or the CastError Mongoose raises for a malformed id.
   */
  datatype Lookup = CastError | Missing | Found(index: nat)
}

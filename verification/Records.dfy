/** Vectors, their metadata, and the AND-of-equals metadata filter. */
module Records {

  type Id = string

  /** (tenant, dataset). */
  type Key = (string, string)

  /** A metadata value. Constructors keep Python's distinct types apart, so
      integer 1, real 1.0, boolean True and string "1" never compare equal. */
  datatype Scalar = Null | Flag(b: bool) | Whole(i: int) | Real(r: real) | Text(s: string)

  type Meta = map<string, Scalar>

  datatype Payload = Payload(values: seq<real>, metadata: Meta)

  datatype Record = Record(id: Id, payload: Payload)

  /** Python's string order: code point by code point. */
  predicate IdLe(a: Id, b: Id) {
    a == [] || (b != [] && (a[0] < b[0] || (a[0] == b[0] && IdLe(a[1..], b[1..]))))
  }

  lemma IdLeTotal(a: Id, b: Id)
    ensures IdLe(a, b) || IdLe(b, a)
  {
  }

  lemma {:induction false} IdLeTransitive(a: Id, b: Id, c: Id)
    requires IdLe(a, b) && IdLe(b, c)
    ensures IdLe(a, c)
  {
    if a != [] && a[0] == b[0] == c[0] {
      IdLeTransitive(a[1..], b[1..], c[1..]);
    }
  }

  lemma {:induction false} IdLeAntisymmetric(a: Id, b: Id)
    requires IdLe(a, b) && IdLe(b, a)
    ensures a == b
  {
    if a == [] {
    } else {
      IdLeAntisymmetric(a[1..], b[1..]);
      assert a == [a[0]] + a[1..] && b == [b[0]] + b[1..];
    }
  }

  /** The filter's meaning: every requested key is present with an equal,
      non-null value. */
  ghost predicate Passes(metadata: Meta, flt: Meta) {
    forall k :: k in flt ==> flt[k] != Null && k in metadata && metadata[k] == flt[k]
  }

  /** What a filter asks, key by key: an empty one nothing, and each further key an
      equal value that is not null. */
  lemma FilterIsAndOfEquals(metadata: Meta, flt: Meta, k: string, v: Scalar)
    ensures Passes(metadata, map[])
    ensures Passes(metadata, flt[k := v])
            <==> v != Null && k in metadata && metadata[k] == v && Passes(metadata, flt - {k})
  {
    var more := flt[k := v];
    if Passes(metadata, more) {
      assert k in more;
      forall l | l in flt - {k} ensures flt[l] != Null && l in metadata && metadata[l] == flt[l] {
        assert l in more && more[l] == flt[l];
      }
    }
    if v != Null && k in metadata && metadata[k] == v && Passes(metadata, flt - {k}) {
      forall l | l in more ensures more[l] != Null && l in metadata && metadata[l] == more[l] {
        assert l != k ==> l in flt - {k} && (flt - {k})[l] == more[l];
      }
    }
  }

  /** _metadata_matches_filter: the early-returning walk over the filter's keys. */
  method MetadataMatchesFilter(metadata: Meta, flt: Meta) returns (ok: bool)
    ensures ok <==> Passes(metadata, flt)
  {
    var pending := flt.Keys;
    while pending != {}
      invariant pending <= flt.Keys
      invariant forall k :: k in flt.Keys - pending ==>
        flt[k] != Null && k in metadata && metadata[k] == flt[k]
      decreases |pending|
    {
      var key :| key in pending;
      var want := flt[key];
      if want == Null || key !in metadata || metadata[key] != want {
        return false;
      }
      pending := pending - {key};
    }
    return true;
  }
}

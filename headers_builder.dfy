/**
 * `HeadersBuilder`: a fluent accumulator of HTTP headers over a mutable dictionary
 * that `Build` hands out by reference.
 */
module Headers {

  const ContentType := "Content-Type"
  const Authorization := "Authorization"
  const Accept := "Accept"

  /** The only header names the builder ever writes. */
  const KnownNames: set<string> := {ContentType, Authorization, Accept}

  /** A mutable string-to-string dictionary, shared by whoever holds a reference to it. */
  class Dictionary {
    var entries: map<string, string>

    constructor ()
      ensures entries == map[]
    {
      entries := map[];
    }
  }

  class HeadersBuilder {
    const headers: Dictionary

    /** Every name in the dictionary is one the builder writes. */
    ghost predicate Valid()
      reads this, headers
    {
      headers.entries.Keys <= KnownNames
    }

    constructor ()
      ensures Valid() && fresh(headers) && headers.entries == map[]
    {
      headers := new Dictionary();
    }

    /** Sets "Content-Type", overwriting any earlier value; returns this builder. */
    method WithContentType(contentType: string) returns (self: HeadersBuilder)
      modifies headers
      ensures self == this
      ensures headers.entries == old(headers.entries)[ContentType := contentType]
      ensures old(Valid()) ==> Valid()
    {
      headers.entries := headers.entries[ContentType := contentType];
      self := this;
    }

    /** Stores the token verbatim under "Authorization"; returns this builder. */
    method WithAuthorization(token: string) returns (self: HeadersBuilder)
      modifies headers
      ensures self == this
      ensures headers.entries == old(headers.entries)[Authorization := token]
      ensures old(Valid()) ==> Valid()
    {
      headers.entries := headers.entries[Authorization := token];
      self := this;
    }

    /** Sets "Accept", overwriting any earlier value; returns this builder. */
    method WithAccept(accept: string) returns (self: HeadersBuilder)
      modifies headers
      ensures self == this
      ensures headers.entries == old(headers.entries)[Accept := accept]
      ensures old(Valid()) ==> Valid()
    {
      headers.entries := headers.entries[Accept := accept];
      self := this;
    }

    /** Returns the builder's own dictionary, not a copy, and changes nothing. */
    method Build() returns (d: Dictionary)
      ensures d == headers
    {
      d := headers;
    }
  }

  /**
   * Two `Build` results of any builder are the same dictionary, and a `With*` call
   * made after the first `Build` shows through it.
   */
  method BuildSharesLaterWrites(b: HeadersBuilder, value: string) returns (early: Dictionary, late: Dictionary)
    modifies b.headers
    ensures early == late == b.headers
    ensures early.entries == old(b.headers.entries)[Accept := value]
  {
    early := b.Build();
    var _ := b.WithAccept(value);
    late := b.Build();
  }
}

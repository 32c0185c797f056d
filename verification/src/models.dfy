/**
 * The domain records of internal/core/domain/models: users, the inputs that
 * create and partially update them, and short URLs. Instants are nanoseconds
 * (see `Times`); an optional `*time.Time` is an `Option<int>`.
 */
module Models {
  import opened Wrappers

  datatype User = User(id: string, name: string, email: string, createdAt: int)

  /** The parameters of the `CreateUser` query. */
  datatype CreateUserParams = CreateUserParams(name: string, email: string)

  datatype CreateUserInput = CreateUserInput(name: string, email: string) {
    /** `ToPgCreateUser`: the query parameters carry the input's name and email. */
    function ToPgCreateUser(): (p: CreateUserParams)
      ensures p.name == name && p.email == email
    {
      CreateUserParams(name, email)
    }
  }

  /** A partial update: an absent field is left as it is. */
  datatype UpdateUserInput = UpdateUserInput(name: Option<string>, email: Option<string>) {
    /**
     * `ApplyTo`: the user with each present field of the input written over
     * it; id and creation time never change.
     */
    function ApplyTo(user: User): (r: User)
      ensures r.id == user.id && r.createdAt == user.createdAt
      ensures r.name == if name.Some? then name.value else user.name
      ensures r.email == if email.Some? then email.value else user.email
    {
      var withName := if name.Some? then user.(name := name.value) else user;
      if email.Some? then withName.(email := email.value) else withName
    }
  }

  /** A `*User`: the record `ApplyTo` updates in place through the pointer. */
  class UserRef {
    var user: User

    constructor (user: User)
      ensures this.user == user
    {
      this.user := user;
    }

    /** `ApplyTo` on the pointed-to record: each present field of `i` is written into it. */
    method Apply(i: UpdateUserInput)
      modifies this
      ensures user == i.ApplyTo(old(user))
    {
      if i.name.Some? {
        user := user.(name := i.name.value);
      }
      if i.email.Some? {
        user := user.(email := i.email.value);
      }
    }
  }

  /** Applying the same update twice is applying it once; applying an empty update changes nothing. */
  lemma ApplyToIdempotent(i: UpdateUserInput, u: User)
    ensures i.ApplyTo(i.ApplyTo(u)) == i.ApplyTo(u)
    ensures UpdateUserInput(None, None).ApplyTo(u) == u
  {
  }

  /**
   * A short URL as the services see it. `accessCount` is the durable access
   * count some mappings copy from the row.
   */
  datatype ShortUrl = ShortUrl(
    id: string, slug: string, originalUrl: string, userId: string,
    createdAt: int, expiresAt: Option<int>, accessCount: int)

  /** A `*ShortUrl`: the record a service loads and then changes field by field. */
  class ShortUrlRef {
    var url: ShortUrl

    constructor (url: ShortUrl)
      ensures this.url == url
    {
      this.url := url;
    }
  }
}

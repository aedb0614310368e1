/**
 * `PasswordCache`: a lazily created singleton holding the member's
 * plain-text password (or null) in memory.
 */
module PasswordCache {
  import opened Wrappers

  class PasswordCache {
    var password: Option<string>

    /** The private constructor: the password starts out null. */
    constructor ()
      ensures password.None?
    {
      password := None;
    }

    method SetPassword(p: Option<string>)
      modifies this
      ensures password == p
    {
      password := p;
    }

    function GetPassword(): Option<string>
      reads this
    {
      password
    }
  }

  /** The class's static `instance` field. */
  class Holder {
    var instance: PasswordCache?

    constructor ()
      ensures instance == null
    {
      instance := null;
    }

    /** `getInstance`: the existing instance, or a new one with no password, created only when there is none. */
    method GetInstance() returns (c: PasswordCache)
      modifies this
      ensures old(instance) != null ==> c == old(instance)
      ensures old(instance) == null ==> fresh(c) && c.password.None?
      ensures instance == c
    {
      if instance == null {
        instance := new PasswordCache();
      }
      c := instance;
    }
  }

  /**
   * Two `getInstance` calls with a `setPassword` between them: both give
   * the same instance, and the second reads the password the first wrote.
   */
  method EscribirYLeer(holder: Holder, p: Option<string>) returns (misma: bool, leida: Option<string>)
    modifies holder, holder.instance
    ensures misma && leida == p
  {
    var primera := holder.GetInstance();
    primera.SetPassword(p);
    var segunda := holder.GetInstance();
    misma := primera == segunda;
    leida := segunda.GetPassword();
  }

  /** The last of two writes wins. */
  method DosEscrituras(holder: Holder, p: Option<string>, q: Option<string>) returns (leida: Option<string>)
    modifies holder, holder.instance
    ensures leida == q
  {
    var c := holder.GetInstance();
    c.SetPassword(p);
    c := holder.GetInstance();
    c.SetPassword(q);
    c := holder.GetInstance();
    leida := c.GetPassword();
  }
}

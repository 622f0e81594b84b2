/** The mock session (src/context/AuthContext.tsx): a single `user` slot that
    login, register, logout and addBooking replace. The clock (`Date.now()`)
    and the random draw (`Math.random()`) are parameters. */
module AuthContext {
  import opened Types
  import Text

  const AdminEmail := "admin@tixwix.com"
  const AdminPassword := "admin123"

  /** The user the admin credentials log in. */
  function AdminUser(): (u: User)
    ensures u.role == AdminRole && u.bookings == [] && u.monthlyBookingCount == 0
    ensures u.email == AdminEmail
  {
    User("admin-1", "Admin", AdminEmail, None, AdminRole, [], 0)
  }

  /** `'user-' + Date.now()` for a clock reading `now`. */
  function UserId(now: nat): string
  {
    "user-" + Text.NatToString(now)
  }

  /** `Math.floor(random * 5)` for a draw `0 <= random < 1`. */
  function MonthlyCountDraw(random: real): (n: int)
    requires 0.0 <= random < 1.0
    ensures 0 <= n <= 4
  {
    (random * 5.0).Floor
  }

  /** The user `login` stores for credentials it accepts. */
  function LoginUser(email: string, password: string, now: nat, random: real): (u: User)
    requires 0.0 <= random < 1.0
    ensures u.role == AdminRole <==> email == AdminEmail && password == AdminPassword
    ensures u.bookings == [] && 0 <= u.monthlyBookingCount <= 4
  {
    if email == AdminEmail && password == AdminPassword then AdminUser()
    else User(UserId(now), Text.BeforeFirst(email, '@'), email, None, UserRole, [], MonthlyCountDraw(random))
  }

  /** Admin credentials give the admin; any other pair gives a plain user
      named after the part of the e-mail before the first '@', with no
      bookings and a monthly count between 0 and 4. */
  lemma LoginUserShape(email: string, password: string, now: nat, random: real)
    requires 0.0 <= random < 1.0
    ensures email == AdminEmail && password == AdminPassword ==> LoginUser(email, password, now, random) == AdminUser()
    ensures !(email == AdminEmail && password == AdminPassword) ==>
              var u := LoginUser(email, password, now, random);
              u.role == UserRole && u.email == email && u.bookings == [] && 0 <= u.monthlyBookingCount <= 4
              && u.name <= email && '@' !in u.name && ('@' in email ==> email[|u.name|] == '@')
              && ('@' !in email ==> u.name == email)
  {
    Text.BeforeFirstIsPrefix(email, '@');
  }

  /** The user `register` stores. */
  function RegisteredUser(name: string, email: string, now: nat): (u: User)
    ensures u.name == name && u.email == email && u.role == UserRole
    ensures u.bookings == [] && u.monthlyBookingCount == 0
  {
    User(UserId(now), name, email, None, UserRole, [], 0)
  }

  /** The user after `addBooking(b)`: the booking at the end of the history
      and the monthly count one higher; identity and role untouched. */
  function WithBooking(u: User, b: Booking): (v: User)
    ensures v.bookings == u.bookings + [b]
    ensures v.monthlyBookingCount == u.monthlyBookingCount + 1
    ensures v.id == u.id && v.name == u.name && v.email == u.email && v.phone == u.phone && v.role == u.role
  {
    u.(bookings := u.bookings + [b], monthlyBookingCount := u.monthlyBookingCount + 1)
  }

  /** The user after a run of `addBooking` calls, in order. */
  function WithBookings(u: User, bs: seq<Booking>): User
    decreases |bs|
  {
    if bs == [] then u else WithBookings(WithBooking(u, bs[0]), bs[1..])
  }

  /** Bookings made one after another pile up in order, and each one raises
      the monthly count by one. */
  lemma {:induction false} WithBookingsAccumulate(u: User, bs: seq<Booking>)
    ensures WithBookings(u, bs).bookings == u.bookings + bs
    ensures WithBookings(u, bs).monthlyBookingCount == u.monthlyBookingCount + |bs|
    ensures WithBookings(u, bs).(bookings := u.bookings, monthlyBookingCount := u.monthlyBookingCount) == u
    decreases |bs|
  {
    if bs != [] {
      WithBookingsAccumulate(WithBooking(u, bs[0]), bs[1..]);
      assert u.bookings + [bs[0]] + bs[1..] == u.bookings + bs;
    }
  }

  /** The provider's state. */
  class Session {
    var user: Option<User>

    constructor ()
      ensures user == None
    {
      user := None;
    }

    /** `isAuthenticated: !!user` */
    function IsAuthenticated(): (b: bool)
      reads this
      ensures b <==> user.Some?
    {
      user.Some?
    }

    /** `isAdmin: user?.role === 'admin'` */
    function IsAdmin(): (b: bool)
      reads this
      ensures b ==> IsAuthenticated()
      ensures b <==> user.Some? && user.value.role == AdminRole
    {
      user.Some? && user.value.role == AdminRole
    }

    /** `login(email, password)`: accepted exactly when both are non-empty;
        a refused attempt leaves the session as it was. */
    method Login(email: string, password: string, now: nat, random: real) returns (ok: bool)
      requires 0.0 <= random < 1.0
      modifies this
      ensures ok <==> email != "" && password != ""
      ensures ok ==> user == Some(LoginUser(email, password, now, random))
      ensures !ok ==> user == old(user)
    {
      if email == AdminEmail && password == AdminPassword {
        user := Some(AdminUser());
        return true;
      }
      if email != "" && password != "" {
        user := Some(User(UserId(now), Text.BeforeFirst(email, '@'), email, None, UserRole, [],
                          (random * 5.0).Floor));
        return true;
      }
      return false;
    }

    /** `register(name, email, password)`: accepted exactly when all three
        are non-empty. */
    method Register(name: string, email: string, password: string, now: nat) returns (ok: bool)
      modifies this
      ensures ok <==> name != "" && email != "" && password != ""
      ensures ok ==> user == Some(RegisteredUser(name, email, now))
      ensures !ok ==> user == old(user)
    {
      if name != "" && email != "" && password != "" {
        user := Some(User(UserId(now), name, email, None, UserRole, [], 0));
        return true;
      }
      return false;
    }

    method Logout()
      modifies this
      ensures user == None && !IsAuthenticated() && !IsAdmin()
    {
      user := None;
    }

    /** `addBooking(b)`: records the booking for the logged-in user; without
        one it does nothing. It returns nothing. */
    method AddBooking(b: Booking)
      modifies this
      ensures old(user).None? ==> user == None
      ensures old(user).Some? ==> user == Some(WithBooking(old(user).value, b))
    {
      if user.Some? {
        var u := user.value;
        user := Some(u.(bookings := u.bookings + [b], monthlyBookingCount := u.monthlyBookingCount + 1));
      }
    }
  }
}

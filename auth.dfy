/** The sign-in page: the slider of four panels, the choice between login and registration
    requests, the messages shown after a reply, and the mode switch. */
module Auth {
  import opened Values
  import opened Cookies

  /** The number of slider panels. */
  const SlideCount: nat := 4

  /** `nextSlide` and the interval tick: one panel forward, wrapping around. */
  function Next(i: nat): (j: nat)
    ensures j < SlideCount
    ensures i < SlideCount - 1 ==> j == i + 1
    ensures i == SlideCount - 1 ==> j == 0
  {
    (i + 1) % SlideCount
  }

  /** `prevSlide`: one panel back, wrapping around. */
  function Prev(i: nat): (j: nat)
    ensures j < SlideCount
    ensures 0 < i < SlideCount ==> j == i - 1
    ensures i == 0 ==> j == SlideCount - 1
  {
    (i - 1 + SlideCount) % SlideCount
  }

  /** Back and forward undo each other. */
  lemma PrevUndoesNext(i: nat)
    requires i < SlideCount
    ensures Prev(Next(i)) == i && Next(Prev(i)) == i
  {
  }

  /** The panel after `n` ticks of the interval. */
  function Advance(i: nat, n: nat): nat
  {
    if n == 0 then i else Next(Advance(i, n - 1))
  }

  /** Ticking `n` times moves `n` panels forward around the ring. */
  lemma {:induction false} AdvanceIsModular(i: nat, n: nat)
    requires i < SlideCount
    ensures Advance(i, n) == (i + n) % SlideCount
  {
    if n > 0 {
      AdvanceIsModular(i, n - 1);
    }
  }

  /** Four more ticks come back to the same panel. */
  lemma FullTurn(i: nat, n: nat)
    requires i < SlideCount
    ensures Advance(i, n + SlideCount) == Advance(i, n)
  {
    AdvanceIsModular(i, n);
    AdvanceIsModular(i, n + SlideCount);
  }

  datatype AuthForm = AuthForm(name: string, email: string, password: string)

  const EmptyForm := AuthForm("", "", "")

  /** The request `handleSubmit` sends: the login endpoint with only the e-mail and
      password, or the sign-up endpoint with the whole form. */
  function Request(isLogin: bool, form: AuthForm): (req: (string, Record))
    ensures isLogin ==> req.0 == "/api/v1/users/login" && req.1.Keys == {"email", "password"}
    ensures !isLogin ==> req.0 == "/api/v1/users/signup" && req.1.Keys == {"name", "email", "password"}
    ensures Get(req.1, "email") == Str(form.email) && Get(req.1, "password") == Str(form.password)
    ensures !isLogin ==> Get(req.1, "name") == Str(form.name)
  {
    if isLogin then
      ("/api/v1/users/login", map["email" := Str(form.email), "password" := Str(form.password)])
    else
      ("/api/v1/users/signup", map["name" := Str(form.name), "email" := Str(form.email), "password" := Str(form.password)])
  }

  /** The login request never carries the name typed before switching modes. */
  lemma LoginOmitsName(form: AuthForm)
    ensures "name" !in Request(true, form).1
  {
  }

  /** What came back: a reply with its status and decoded body, or a failure to reach the
      server or decode the body. */
  datatype Reply = Reply(ok: bool, body: Record) | NetworkError

  function ModeWord(isLogin: bool): string
  {
    if isLogin then "Login" else "Registration"
  }

  /** The message after a reply: success text, the server's `message` when truthy, or the
      mode's failure text. */
  function MessageFor(isLogin: bool, reply: Reply): (m: Value)
    ensures reply.NetworkError? ==> m == Str("Network error. Please try again.")
    ensures reply.Reply? && reply.ok ==> m == Str(ModeWord(isLogin) + " successful!")
    ensures reply.Reply? && !reply.ok && Truthy(Get(reply.body, "message")) ==> m == Get(reply.body, "message")
    ensures reply.Reply? && !reply.ok && !Truthy(Get(reply.body, "message")) ==> m == Str(ModeWord(isLogin) + " failed")
    ensures Truthy(m)
  {
    match reply
    case NetworkError => Str("Network error. Please try again.")
    case Reply(ok, body) =>
      if ok then Str(ModeWord(isLogin) + " successful!")
      else if Truthy(Get(body, "message")) then Get(body, "message")
      else Str(ModeWord(isLogin) + " failed")
  }

  /** The page's state. */
  class AuthPage {
    var isLogin: bool
    var currentSlide: nat
    var form: AuthForm
    var loading: bool
    var message: Value

    /** The slider always shows one of its panels. */
    predicate Valid()
      reads this
    {
      currentSlide < SlideCount
    }

    constructor ()
      ensures isLogin && currentSlide == 0 && form == EmptyForm && !loading && message == Str("")
      ensures Valid()
    {
      isLogin := true;
      currentSlide := 0;
      form := EmptyForm;
      loading := false;
      message := Str("");
    }

    /** The session effect: a visitor who already has a session is sent home. */
    static method CheckSession(cookie: string) returns (redirectHome: bool)
      ensures redirectHome == HasSession(cookie)
    {
      redirectHome := HasSession(cookie);
    }

    method NextSlide()
      requires Valid()
      modifies this`currentSlide
      ensures Valid() && currentSlide == Next(old(currentSlide))
    {
      currentSlide := Next(currentSlide);
    }

    method PrevSlide()
      requires Valid()
      modifies this`currentSlide
      ensures Valid() && currentSlide == Prev(old(currentSlide))
    {
      currentSlide := Prev(currentSlide);
    }

    /** Clicking indicator `k`; there is one indicator per panel. */
    method GoToSlide(k: nat)
      requires k < SlideCount
      modifies this`currentSlide
      ensures Valid() && currentSlide == k
    {
      currentSlide := k;
    }

    /** `handleSubmit`: sends `request`; on success the session cookie gets the reply's
        token, or `dummy_token`, and the visitor is sent home. */
    method Submit(reply: Reply) returns (request: (string, Record), sessionToken: Option<Value>)
      modifies this`loading, this`message
      ensures request == Request(isLogin, form)
      ensures message == MessageFor(isLogin, reply) && !loading
      ensures sessionToken.Some? <==> reply.Reply? && reply.ok
      ensures sessionToken.Some? ==>
                sessionToken.value == if Truthy(Get(reply.body, "token")) then Get(reply.body, "token") else Str("dummy_token")
    {
      loading := true;
      message := Str("");
      request := Request(isLogin, form);
      sessionToken := None;
      if reply.Reply? && reply.ok {
        var token := Get(reply.body, "token");
        sessionToken := Some(if Truthy(token) then token else Str("dummy_token"));
      }
      message := MessageFor(isLogin, reply);
      loading := false;
    }

    /** `toggleAuthMode`: the other mode, with an empty form and no message. */
    method ToggleAuthMode()
      modifies this`isLogin, this`form, this`message
      ensures isLogin == !old(isLogin) && form == EmptyForm && message == Str("")
    {
      isLogin := !isLogin;
      form := EmptyForm;
      message := Str("");
    }

    /** The Login and Register tabs above the form: they set the mode and leave the form
        and the message as they are. */
    method SetLoginMode(login: bool)
      modifies this`isLogin
      ensures isLogin == login
    {
      isLogin := login;
    }
  }
}

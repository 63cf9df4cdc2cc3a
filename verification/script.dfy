/** static/script.js: the theme choice kept in the `theme` cookie, the theme
    and icon applied for it, and the guards of the copy and open-link buttons.
    The page's mutable state (the `data-bs-theme` attribute, the cookies, the
    icons' text) is the class Page; everything else is pure. */
module Script {
  import opened Wrappers
  import opened Text

  /** The three choices the theme menu offers. */
  const Choices: set<string> := {"light", "dark", "auto"}

  // ---------------------------------------------------------------------
  // Reading the `theme` cookie
  // ---------------------------------------------------------------------

  /** `rows.find(row => row.startsWith(prefix))`: the first row with the
      prefix, or undefined. */
  function FindRow(rows: seq<string>, prefix: string): (r: Option<string>)
    ensures r.Some? ==> exists k :: 0 <= k < |rows| && rows[k] == r.value && StartsWith(r.value, prefix)
                                    && forall j :: 0 <= j < k ==> !StartsWith(rows[j], prefix)
    ensures r.None? ==> forall k :: 0 <= k < |rows| ==> !StartsWith(rows[k], prefix)
  {
    if rows == [] then None
    else if StartsWith(rows[0], prefix) then Some(rows[0])
    else
      var r := FindRow(rows[1..], prefix);
      assert forall k :: 0 <= k < |rows| - 1 ==> rows[1..][k] == rows[k + 1];
      r
  }

  /** `parts[i]`, undefined past the end. */
  function At(parts: seq<string>, i: nat): Option<string> {
    if i < |parts| then Some(parts[i]) else None
  }

  /** `v || fallback` for a string that may be undefined: the empty string is
      falsy too. */
  function OrElse(v: Option<string>, fallback: string): string {
    if v.Some? && v.value != "" then v.value else fallback
  }

  /** `document.cookie.split('; ').find(row => row.startsWith('theme='))
      ?.split('=')[1] || 'auto'`, as toggleTheme and the page initialisation
      compute it. */
  function LookupTheme(cookie: string): (choice: string)
    ensures choice != ""
  {
    var row := FindRow(Split(cookie, "; "), "theme=");
    var value := if row.Some? then At(Split(row.value, "="), 1) else None;
    OrElse(value, "auto")
  }

  /** For a row starting with `theme=`, `row.split('=')[1]` is the text between
      the first and the second `=` (or the end). */
  lemma ThemeRowValue(row: string)
    requires StartsWith(row, "theme=")
    ensures At(Split(row, "="), 1) == Some(Before(row[6..], '='))
  {
    assert row[..5] == "theme" && row[5..6] == "=";
    SplitAt(row, "=", 5);
    SplitHead(row[6..], '=');
  }

  /** The lookup takes the first `; `-separated row starting with `theme=`,
      and yields the text between its first and second `=`, or 'auto' when
      there is no such row or that text is empty. */
  lemma LookupThemeSpec(cookie: string)
    ensures var row := FindRow(Split(cookie, "; "), "theme=");
      LookupTheme(cookie) == if row.None? then "auto" else OrElse(Some(Before(row.value[6..], '=')), "auto")
  {
    var row := FindRow(Split(cookie, "; "), "theme=");
    if row.Some? {
      ThemeRowValue(row.value);
    }
  }

  /** A non-empty value holding neither `=` nor `;` is read back from
      `"theme=" + v`. */
  lemma LookupRoundTrip(v: string)
    requires v != "" && '=' !in v && ';' !in v
    ensures LookupTheme("theme=" + v) == v
  {
    var s := "theme=" + v;
    assert ';' !in s;
    SplitWhole(s, "; ");
    assert StartsWith(s, "theme=");
    ThemeRowValue(s);
    assert s[6..] == v;
    BeforeAbsent(v, '=');
  }

  // ---------------------------------------------------------------------
  // Writing the `theme` cookie
  // ---------------------------------------------------------------------

  /** The attributes every cookie setCookie writes ends with. */
  const PathAttributes := "path=/; SameSite=Lax"

  /** What setCookie writes after `name=value`: `"; expires="` and the expiry
      date `expiry`, computed from the clock, when `days` is truthy (not 0),
      then `"; "` and the path and SameSite attributes. */
  function CookieAttributes(days: int, expiry: string): (tail: string)
    ensures |tail| >= 2 && tail[..2] == "; "
  {
    (if days != 0 then "; expires=" + expiry else "") + "; " + PathAttributes
  }

  /** `setCookie(name, value, days)`'s string: `name + "=" + (value || "")`
      followed by the attributes. */
  function CookieString(name: string, value: Option<string>, days: int, expiry: string): (s: string)
    ensures StartsWith(s, name + "=" + OrElse(value, ""))
    ensures EndsWith(s, "; " + PathAttributes)
    ensures days == 0 ==> s == name + "=" + OrElse(value, "") + "; " + PathAttributes
  {
    name + "=" + OrElse(value, "") + CookieAttributes(days, expiry)
  }

  /** The name-value pair of the string setCookie builds, the text before its
      first `;`, is `name=value`: the expiry and the path and SameSite
      attributes come after it. */
  lemma CookieStringPair(name: string, value: string, days: int, expiry: string)
    requires ';' !in name && ';' !in value
    ensures Before(CookieString(name, Some(value), days, expiry), ';') == name + "=" + value
  {
    var tail := CookieAttributes(days, expiry);
    assert tail[0] == tail[..2][0];
    BeforeSeparator(name + "=" + value, ';', tail);
  }

  /** The first `; `-separated row of `pair + tail` is `pair` when `pair`
      holds no `;` and `tail` starts with `; `. */
  lemma FirstRow(pair: string, tail: string)
    requires ';' !in pair && |tail| >= 2 && tail[..2] == "; "
    ensures Split(pair + tail, "; ")[0] == pair
  {
    var s := pair + tail;
    assert s[..|pair|] == pair;
    assert s[|pair|..|pair| + 2] == "; ";
    SplitAt(s, "; ", |pair|);
  }

  /** When the first `; `-separated row starts with `theme=`, the lookup
      reads that row. */
  lemma LookupFirstRow(cookie: string)
    requires StartsWith(Split(cookie, "; ")[0], "theme=")
    ensures LookupTheme(cookie) == OrElse(Some(Before(Split(cookie, "; ")[0][6..], '=')), "auto")
  {
    LookupThemeSpec(cookie);
  }

  /** Reading the cookie string itself gives the value back: the lookup stops
      at the first `; `, before the attributes. */
  lemma LookupOfCookieString(v: string, days: int, expiry: string)
    requires v != "" && '=' !in v && ';' !in v
    ensures LookupTheme(CookieString("theme", Some(v), days, expiry)) == v
  {
    var s := CookieString("theme", Some(v), days, expiry);
    var pair := "theme=" + v;
    assert s == pair + CookieAttributes(days, expiry) by {
      assert OrElse(Some(v), "") == v;
    }
    FirstRow(pair, CookieAttributes(days, expiry));
    assert pair[..6] == "theme=" && pair[6..] == v;
    LookupFirstRow(s);
    BeforeAbsent(v, '=');
  }

  // ---------------------------------------------------------------------
  // The browser's cookie store, as far as the theme cookie needs it
  // ---------------------------------------------------------------------

  datatype Cookie = Cookie(name: string, value: string)

  /** What the browser can hold: a non-empty name with neither `;` nor `=`,
      and a value with no `;`. */
  predicate WellFormed(c: Cookie) {
    c.name != "" && ';' !in c.name && '=' !in c.name && ';' !in c.value
  }

  predicate ValidJar(jar: seq<Cookie>) {
    forall i :: 0 <= i < |jar| ==> WellFormed(jar[i])
  }

  function Rows(jar: seq<Cookie>): (rows: seq<string>)
    ensures |rows| == |jar|
    ensures forall i :: 0 <= i < |jar| ==> rows[i] == jar[i].name + "=" + jar[i].value
  {
    seq(|jar|, i requires 0 <= i < |jar| => jar[i].name + "=" + jar[i].value)
  }

  /** What reading `document.cookie` returns. */
  function CookieHeader(jar: seq<Cookie>): string {
    Join(Rows(jar), "; ")
  }

  /** The value of the first cookie of that name. */
  function JarValue(jar: seq<Cookie>, name: string): Option<string> {
    if jar == [] then None
    else if jar[0].name == name then Some(jar[0].value)
    else JarValue(jar[1..], name)
  }

  /** Replace the value of the cookie of that name, or add the cookie. */
  function SetValue(jar: seq<Cookie>, name: string, value: string): (r: seq<Cookie>)
    ensures JarValue(r, name) == Some(value)
    ensures forall n :: n != name ==> JarValue(r, n) == JarValue(jar, n)
    ensures ValidJar(jar) && WellFormed(Cookie(name, value)) ==> ValidJar(r)
  {
    if jar == [] then [Cookie(name, value)]
    else if jar[0].name == name then [Cookie(name, value)] + jar[1..]
    else
      var r := [jar[0]] + SetValue(jar[1..], name, value);
      assert r[1..] == SetValue(jar[1..], name, value);
      r
  }

  /** Storing a name-value pair: the name is the text before its first `=`,
      the value the rest; a pair without `=` or with an empty name is
      ignored. */
  function StorePair(jar: seq<Cookie>, pair: string): (r: seq<Cookie>)
    requires ';' !in pair
    ensures ValidJar(jar) ==> ValidJar(r)
  {
    var name := Before(pair, '=');
    if |name| == |pair| || name == "" then jar
    else
      var value := pair[|name| + 1..];
      assert forall ch :: ch in value ==> ch in pair;
      SetValue(jar, name, value)
  }

  /** `document.cookie = s`, reduced to section 5.2 of RFC 6265: the
      name-value pair is the text before the first `;`; the attributes after
      it are not kept. */
  function StoreCookie(jar: seq<Cookie>, s: string): (r: seq<Cookie>)
    ensures ValidJar(jar) ==> ValidJar(r)
  {
    StorePair(jar, Before(s, ';'))
  }

  /** Storing `name=value`, for a non-empty name without `=`, sets that
      cookie to `value`. */
  lemma StorePairOf(jar: seq<Cookie>, name: string, value: string)
    requires name != "" && '=' !in name && ';' !in name && ';' !in value
    ensures StorePair(jar, name + "=" + value) == SetValue(jar, name, value)
  {
    var pair := name + "=" + value;
    assert pair == name + ("=" + value);
    BeforeSeparator(name, '=', "=" + value);
    assert pair[|name| + 1..] == value;
  }

  /** A row starts with `theme=` exactly when its cookie is named `theme`. */
  lemma RowIsTheme(c: Cookie)
    requires WellFormed(c)
    ensures StartsWith(c.name + "=" + c.value, "theme=") <==> c.name == "theme"
  {
    var row := c.name + "=" + c.value;
    if |c.name| == 5 {
      assert row[..6] == c.name + "=";
      assert c.name + "=" == "theme=" ==> c.name == ("theme=")[..5];
    } else if |c.name| > 5 {
      assert row[5] == c.name[5];
    } else {
      assert row[|c.name|] == '=';
    }
  }

  /** The first `theme=` row of the header is the row of the first cookie
      named `theme`. */
  lemma {:induction false} FindThemeRow(jar: seq<Cookie>)
    requires ValidJar(jar)
    ensures FindRow(Rows(jar), "theme=") ==
      if JarValue(jar, "theme").None? then None else Some("theme=" + JarValue(jar, "theme").value)
  {
    if jar != [] {
      RowIsTheme(jar[0]);
      assert Rows(jar)[1..] == Rows(jar[1..]);
      FindThemeRow(jar[1..]);
    }
  }

  /** The choice read from the page's cookies is the text before the first `=`
      of the `theme` cookie's value, or 'auto' when there is no such cookie or
      that text is empty. */
  lemma ChoiceOfJar(jar: seq<Cookie>)
    requires ValidJar(jar)
    ensures var v := JarValue(jar, "theme");
      LookupTheme(CookieHeader(jar)) == if v.None? then "auto" else OrElse(Some(Before(v.value, '=')), "auto")
  {
    var rows := Rows(jar);
    if jar == [] {
      assert CookieHeader(jar) == "";
      SplitWhole("", "; ");
    } else {
      forall k | 0 <= k < |rows| ensures ';' !in rows[k] {
        assert WellFormed(jar[k]);
      }
      SplitJoin(rows, "; ");
    }
    FindThemeRow(jar);
    LookupThemeSpec(CookieHeader(jar));
    var v := JarValue(jar, "theme");
    if v.Some? {
      assert ("theme=" + v.value)[6..] == v.value;
    }
  }

  /** Storing setCookie's string for `theme` sets the `theme` cookie to `v`. */
  lemma StoreThemeCookie(jar: seq<Cookie>, v: string, days: int, expiry: string)
    requires ';' !in v
    ensures StoreCookie(jar, CookieString("theme", Some(v), days, expiry)) == SetValue(jar, "theme", v)
  {
    CookieStringPair("theme", v, days, expiry);
    StorePairOf(jar, "theme", v);
  }

  /** setCookie('theme', v, days) followed by the lookup gives `v` back, for
      any non-empty `v` without `=` or `;`; the store stays well formed. */
  lemma StoredThemeIsRead(jar: seq<Cookie>, v: string, days: int, expiry: string)
    requires ValidJar(jar) && v != "" && '=' !in v && ';' !in v
    ensures var jar' := StoreCookie(jar, CookieString("theme", Some(v), days, expiry));
      ValidJar(jar') && LookupTheme(CookieHeader(jar')) == v
  {
    StoreThemeCookie(jar, v, days, expiry);
    ChoiceOfJar(SetValue(jar, "theme", v));
    BeforeAbsent(v, '=');
  }

  // ---------------------------------------------------------------------
  // The theme and the icon setTheme applies
  // ---------------------------------------------------------------------

  /** toggleTheme's cycle light → dark → auto → light; anything else,
      including no choice, goes to light. */
  function NextChoice(current: string): (next: string)
    ensures next in Choices
    ensures next != current
  {
    if current == "light" then "dark"
    else if current == "dark" then "auto"
    else "light"
  }

  /** Three toggles return to each of the three choices; any other choice
      joins the cycle at light. */
  lemma ToggleCycle(c: string)
    ensures c in Choices ==> NextChoice(NextChoice(NextChoice(c))) == c
    ensures NextChoice("light") == "dark" && NextChoice("dark") == "auto" && NextChoice("auto") == "light"
    ensures c !in Choices ==> NextChoice(c) == "light"
  {
  }

  /** setTheme's `actualTheme`: the choice itself, except that 'auto' follows
      the system preference (`prefers-color-scheme: dark`). */
  function AppliedTheme(choice: string, prefersDark: bool): (applied: string)
    ensures applied != "auto"
    ensures choice != "auto" ==> applied == choice
    ensures choice == "auto" ==> (applied == "dark" <==> prefersDark)
    ensures choice in Choices ==> applied == "light" || applied == "dark"
  {
    if choice == "auto" then (if prefersDark then "dark" else "light") else choice
  }

  /** The icon setTheme shows for a choice, `iconMap[theme] || iconMap['auto']`
      read as the map's own three keys. */
  function IconFor(theme: string): (icon: string)
    ensures icon == "light_mode" <==> theme == "light"
    ensures icon == "dark_mode" <==> theme == "dark"
    ensures theme != "light" && theme != "dark" ==> icon == "contrast"
  {
    if theme == "light" then "light_mode"
    else if theme == "dark" then "dark_mode"
    else "contrast"
  }

  /** The names every JavaScript object inherits from Object.prototype. */
  const ObjectPrototypeMembers: set<string> := {
    "constructor", "hasOwnProperty", "isPrototypeOf", "propertyIsEnumerable",
    "toLocaleString", "toString", "valueOf", "__proto__",
    "__defineGetter__", "__defineSetter__", "__lookupGetter__", "__lookupSetter__"}

  /** The text `textContent` receives for a value inherited from
      Object.prototype: `String()` of the native function, named like the key
      except for `constructor` (the function Object), and "[object Object]"
      for `__proto__`, which is Object.prototype itself. The layout of a
      native function's text depends on the JavaScript engine; this is V8's
      one-line form (SpiderMonkey breaks it over three lines). What matters
      to the page is only that it is no icon name. */
  function InheritedText(key: string): string {
    if key == "__proto__" then "[object Object]"
    else "function " + (if key == "constructor" then "Object" else key) + "() { [native code] }"
  }

  /** The icon text setTheme writes, `iconMap[theme] || iconMap['auto']` as
      JavaScript evaluates it: a key the object literal lacks but inherits
      from Object.prototype yields the inherited value, which is truthy, so
      its text is written instead of an icon name. It agrees with IconFor
      everywhere else. */
  function IconTextAsWritten(theme: string): (text: string)
    ensures theme !in ObjectPrototypeMembers ==> text == IconFor(theme)
    ensures theme in ObjectPrototypeMembers ==> text != "light_mode" && text != "dark_mode" && text != "contrast"
  {
    if theme == "light" then "light_mode"
    else if theme == "dark" then "dark_mode"
    else if theme == "auto" then "contrast"
    else if theme in ObjectPrototypeMembers then InheritedText(theme)
    else "contrast"
  }

  /** A `theme=toString` cookie makes the page show the text of a built-in
      function (in V8's layout) instead of the 'contrast' icon. */
  lemma InheritedKeyIsNotAnIcon()
    ensures IconTextAsWritten("toString") == "function toString() { [native code] }"
    ensures IconFor("toString") == "contrast"
  {
  }

  // ---------------------------------------------------------------------
  // Copy and open-link guards
  // ---------------------------------------------------------------------

  const NoResultText := "No result yet"

  /** The copy button's guard: `text && text !== "No result yet"`. */
  predicate CopyAllowed(text: string): (allowed: bool)
    ensures allowed ==> |text| > 0
    ensures text == NoResultText ==> !allowed
    ensures text != NoResultText ==> (allowed <==> |text| > 0)
  {
    text != "" && text != NoResultText
  }

  /** The open-link button's guard: `text.trim().startsWith('http')`. */
  predicate OpenLinkAllowed(text: string): (allowed: bool)
    ensures allowed <==> StartsWith(text[Leading(text, IsJsWhitespace)..], "http")
  {
    var l := text[Leading(text, IsJsWhitespace)..];
    TrailingStartSpec(l, IsJsWhitespace);
    assert StartsWith(l, "http") ==> TrailingStart(l, IsJsWhitespace) >= 4 by {
      if StartsWith(l, "http") {
        assert l[3] == 'p';
      }
    }
    StartsWith(Trim(text, IsJsWhitespace), "http")
  }

  /** The placeholder text enables neither button, and every text the
      open-link button accepts, the copy button accepts too. */
  lemma GuardsAgree(text: string)
    ensures !CopyAllowed(NoResultText) && !OpenLinkAllowed(NoResultText)
    ensures OpenLinkAllowed(text) ==> CopyAllowed(text)
  {
    assert Leading(NoResultText, IsJsWhitespace) == 0;
    assert TrailingStart(NoResultText, IsJsWhitespace) == |NoResultText|;
    assert Trim(NoResultText, IsJsWhitespace) == NoResultText;
    assert !StartsWith(NoResultText, "http") by {
      assert NoResultText[..4] != "http" by { assert NoResultText[0] == 'N'; }
    }
    assert Trim("", IsJsWhitespace) == "";
  }

  /** Leading and trailing whitespace never changes the open-link decision. */
  lemma OpenLinkIgnoresPadding(text: string)
    ensures OpenLinkAllowed(text) <==> OpenLinkAllowed(Trim(text, IsJsWhitespace))
  {
    TrimIdempotent(text, IsJsWhitespace);
  }

  // ---------------------------------------------------------------------
  // The page
  // ---------------------------------------------------------------------

  class Page {
    /** The `data-bs-theme` attribute of the document element. */
    var themeAttribute: Option<string>
    /** The cookies `document.cookie` reads and writes. */
    var jar: seq<Cookie>
    /** The text of the `.theme-icon-active` elements. */
    const icons: array<string>

    ghost predicate Valid()
      reads this
    {
      ValidJar(jar)
    }

    /** The stored theme choice, as the lookup reads it. */
    function Choice(): string
      reads this
    {
      LookupTheme(CookieHeader(jar))
    }

    constructor (jar: seq<Cookie>, icons: array<string>)
      requires ValidJar(jar)
      ensures Valid() && this.jar == jar && this.icons == icons && themeAttribute == None
    {
      this.jar := jar;
      this.icons := icons;
      themeAttribute := None;
    }

    /** `setCookie(name, value, days)`. */
    method SetCookie(name: string, value: Option<string>, days: int, expiry: string)
      requires Valid()
      modifies this
      ensures Valid() && themeAttribute == old(themeAttribute)
      ensures jar == StoreCookie(old(jar), CookieString(name, value, days, expiry))
    {
      jar := StoreCookie(jar, CookieString(name, value, days, expiry));
    }

    /** `setTheme(theme)`: apply the theme (the system preference for 'auto'),
        store the choice in the cookie for 30 days, and set every icon. */
    method SetTheme(theme: string, prefersDark: bool, expiry: string)
      requires Valid()
      modifies this, icons
      ensures Valid()
      ensures themeAttribute == Some(AppliedTheme(theme, prefersDark))
      ensures jar == StoreCookie(old(jar), CookieString("theme", Some(theme), 30, expiry))
      ensures forall i :: 0 <= i < icons.Length ==> icons[i] == IconTextAsWritten(theme)
    {
      var actualTheme := theme;
      if theme == "auto" {
        actualTheme := if prefersDark then "dark" else "light";
      }
      themeAttribute := Some(actualTheme);
      SetCookie("theme", Some(theme), 30, expiry);
      var icon := IconTextAsWritten(theme);
      for i := 0 to icons.Length
        modifies icons
        invariant forall j :: 0 <= j < i ==> icons[j] == icon
      {
        icons[i] := icon;
      }
    }

    /** `toggleTheme()`: move the stored choice one step along the cycle. */
    method ToggleTheme(prefersDark: bool, expiry: string)
      requires Valid()
      modifies this, icons
      ensures Valid()
      ensures Choice() == NextChoice(old(Choice()))
      ensures themeAttribute == Some(AppliedTheme(Choice(), prefersDark))
      ensures jar == StoreCookie(old(jar), CookieString("theme", Some(NextChoice(old(Choice()))), 30, expiry))
      ensures forall i :: 0 <= i < icons.Length ==> icons[i] == IconFor(Choice())
    {
      var currentChoice := LookupTheme(CookieHeader(jar));
      var newChoice := NextChoice(currentChoice);
      StoredThemeIsRead(jar, newChoice, 30, expiry);
      SetTheme(newChoice, prefersDark, expiry);
    }

    /** The initialisation on load: apply the stored choice, which writing it
        back leaves unchanged. */
    method InitTheme(prefersDark: bool, expiry: string)
      requires Valid()
      modifies this, icons
      ensures Valid()
      ensures Choice() == old(Choice())
      ensures themeAttribute == Some(AppliedTheme(Choice(), prefersDark))
      ensures jar == StoreCookie(old(jar), CookieString("theme", Some(old(Choice())), 30, expiry))
      ensures forall i :: 0 <= i < icons.Length ==> icons[i] == IconTextAsWritten(Choice())
    {
      var initialThemeChoice := LookupTheme(CookieHeader(jar));
      ChoiceOfJar(jar);
      var v := JarValue(jar, "theme");
      if v.Some? {
        assert forall i :: 0 <= i < |jar| && jar[i].name == "theme" ==> ';' !in jar[i].value;
        JarValueWellFormed(jar, "theme");
      }
      StoredThemeIsRead(jar, initialThemeChoice, 30, expiry);
      SetTheme(initialThemeChoice, prefersDark, expiry);
    }
  }

  lemma {:induction false} JarValueWellFormed(jar: seq<Cookie>, name: string)
    requires ValidJar(jar) && JarValue(jar, name).Some?
    ensures ';' !in JarValue(jar, name).value
  {
    if jar[0].name != name {
      JarValueWellFormed(jar[1..], name);
    }
  }
}

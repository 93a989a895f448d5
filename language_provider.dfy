/**
 * The translation layer of `src/components/language-provider.tsx`: the two
 * translation tables, the lookup `t` with its fallback to the key and its
 * placeholder substitution, the choice of the initial language, and the
 * provider holding the current language.
 */
module LanguageProvider {
  import opened Wrappers
  import opened Types
  import opened JsStrings

  datatype Language = En | Es

  /** The language's code as stored and as used in paths. */
  function Code(l: Language): (c: string)
    ensures c == "en" || c == "es"
  {
    match l
    case En => "en"
    case Es => "es"
  }

  /** The language with the given code, if it is one. */
  function FromCode(c: string): (r: Option<Language>)
    ensures r.Some? <==> c == "en" || c == "es"
    ensures r.Some? ==> Code(r.value) == c
  {
    if c == "en" then Some(En) else if c == "es" then Some(Es) else None
  }

  lemma FromCodeOfCode(l: Language)
    ensures FromCode(Code(l)) == Some(l)
  {
  }

  // ---------------------------------------------------------------------------
  // The tables

  /** The English table. */
  const English: map<string, string> := map[
    "nav.home" := "Home",
    "nav.todaysMovie" := "Today's Movie",
    "nav.moviesLibrary" := "Movies Library",
    "nav.watchlist" := "Watchlist",
    "nav.statistics" := "Statistics",
    "nav.profile" := "Profile",
    "nav.settings" := "Settings",
    "nav.login" := "Login",
    "nav.logout" := "Logout",
    "movie.addToWatchlist" := "Add to Watchlist",
    "movie.inWatchlist" := "In Watchlist",
    "movie.markAsWatched" := "Mark as Watched",
    "movie.rateThisMovie" := "Rate this movie",
    "movie.youveWatched" := "You've watched this movie!",
    "movie.remove" := "Remove",
    "watchlist.title" := "Your Watchlist",
    "watchlist.empty" := "Your watchlist is empty",
    "watchlist.viewDetails" := "View Details",
    "profile.recommendedForYou" := "Recommended for You",
    "profile.viewAll" := "View all",
    "profile.title" := "{name}'s Profile",
    "profile.joinedOn" := "Joined on {date}",
    "profile.editProfileSettings" := "Edit Profile Settings",
    "profile.yourProgress" := "Your Progress",
    "profile.moviesWatched" := "Movies Watched",
    "profile.percentComplete" := "{percent}% complete, {remaining} movies remaining",
    "profile.getTodaysMovie" := "Get Today's Movie",
    "profile.goToHome" := "Go to Home",
    "profile.yourRecentlyWatchedMovies" := "Your Recently Watched Movies",
    "profile.noMoviesWatched" := "You haven't watched any movies yet",
    "profile.getStarted" := "Get Started",
    "common.loading" := "Loading...",
    "share.shareProgress" := "Share Your Progress",
    "share.shareNow" := "Share Now",
    "share.shareYourProgress" := "Share Your Progress",
    "share.shareProgressDescription" := "Let your friends know about your movie watching progress!",
    "share.title" := "{name}'s 1001 Movies Progress",
    "share.message" := "I've watched {count} movies ({percent}%) from the \"1001 Movies You Must See Before You Die\" list. I have {remaining} movies left to watch!",
    "share.progress" := "Your Progress",
    "share.watchedCount" := "{count} movies watched, {remaining} remaining",
    "share.copyLink" := "Copy link",
    "share.copied" := "Copied!",
    "settings.darkMode" := "Dark Mode",
    "settings.toggleTheme" := "Toggle theme",
    "settings.lightMode" := "Light Mode",
    "settings.systemTheme" := "Use System Theme",
    "streaks.currentStreak" := "Current Streak",
    "streaks.longestStreak" := "Longest Streak",
    "streaks.days" := "days",
    "streaks.since" := "Since",
    "streaks.watchedToday" := "Great job! You watched a movie today!",
    "streaks.keepTheStreak" := "Watch a movie today to keep your streak going!",
    "streaks.startNewStreak" := "Start a new streak by watching a movie today!",
    "streaks.milestone" := "Milestone Reached!",
    "streaks.streak" := "Streak",
    "achievements.yourAchievements" := "Your Achievements",
    "achievements.recentUnlocked" := "Recent Achievements",
    "achievements.complete" := "complete",
    "achievements.unlocked" := "unlocked",
    "achievements.of" := "of",
    "achievements.all" := "All",
    "achievements.milestones" := "Milestones",
    "achievements.collections" := "Collections",
    "achievements.streaks" := "Streaks",
    "achievements.special" := "Special",
    "achievements.level" := "Level",
    "achievements.unlockedOn" := "Unlocked on",
    "achievements.viewRecommendations" := "View Achievement Recommendations",
    "recommendations.achievementRecommendations" := "Achievement Recommendations",
    "recommendations.moviesThatHelp" := "Movies that will help you unlock achievements",
    "recommendations.noAchievements" := "No Recommendations Available",
    "recommendations.watchMoreMovies" := "Watch more movies to start getting personalized recommendations",
    "recommendations.browseMovies" := "Browse Movies",
    "recommendations.viewDetails" := "View Details",
    "recommendations.unlocks" := "Unlocks",
    "recommendations.personalizedForAchievements" := "Movies recommended based on your achievement progress",
    "recommendations.back" := "Back",
    "recommendations.browseAllMovies" := "Browse All Movies",
    "recommendations.yourProgress" := "Your Achievement Progress"
  ]

  /** The Spanish table. */
  const Spanish: map<string, string> := map[
    "nav.home" := "Inicio",
    "nav.todaysMovie" := "Película del Día",
    "nav.moviesLibrary" := "Biblioteca de Películas",
    "nav.watchlist" := "Lista de Seguimiento",
    "nav.statistics" := "Estadísticas",
    "nav.profile" := "Perfil",
    "nav.settings" := "Configuración",
    "nav.login" := "Iniciar Sesión",
    "nav.logout" := "Cerrar Sesión",
    "movie.addToWatchlist" := "Añadir a Lista",
    "movie.inWatchlist" := "En Lista",
    "movie.markAsWatched" := "Marcar como Vista",
    "movie.rateThisMovie" := "Califica esta película",
    "movie.youveWatched" := "¡Has visto esta película!",
    "movie.remove" := "Eliminar",
    "watchlist.title" := "Tu Lista de Seguimiento",
    "watchlist.empty" := "Tu lista de seguimiento está vacía",
    "watchlist.viewDetails" := "Ver Detalles",
    "profile.recommendedForYou" := "Recomendado para Ti",
    "profile.viewAll" := "Ver todas",
    "profile.title" := "Perfil de {name}",
    "profile.joinedOn" := "Se unió el {date}",
    "profile.editProfileSettings" := "Editar Configuración de Perfil",
    "profile.yourProgress" := "Tu Progreso",
    "profile.moviesWatched" := "Películas Vistas",
    "profile.percentComplete" := "{percent}% completado, {remaining} películas restantes",
    "profile.getTodaysMovie" := "Ver la Película de Hoy",
    "profile.goToHome" := "Ir al Inicio",
    "profile.yourRecentlyWatchedMovies" := "Películas Vistas Recientemente",
    "profile.noMoviesWatched" := "Aún no has visto ninguna película",
    "profile.getStarted" := "Comenzar",
    "common.loading" := "Cargando...",
    "share.shareProgress" := "Compartir Tu Progreso",
    "share.shareNow" := "Compartir Ahora",
    "share.shareYourProgress" := "Comparte Tu Progreso",
    "share.shareProgressDescription" := "¡Muéstrale a tus amigos tu progreso en la lista de películas!",
    "share.title" := "Progreso de {name} en 1001 Películas",
    "share.message" := "He visto {count} películas ({percent}%) de la lista \"1001 Películas que Debes Ver Antes de Morir\". ¡Me quedan {remaining} películas por ver!",
    "share.progress" := "Tu Progreso",
    "share.watchedCount" := "{count} películas vistas, {remaining} restantes",
    "share.copyLink" := "Copiar enlace",
    "share.copied" := "¡Copiado!",
    "settings.darkMode" := "Modo Oscuro",
    "settings.toggleTheme" := "Cambiar tema",
    "settings.lightMode" := "Modo Claro",
    "settings.systemTheme" := "Usar Tema del Sistema",
    "streaks.currentStreak" := "Racha Actual",
    "streaks.longestStreak" := "Racha Más Larga",
    "streaks.days" := "días",
    "streaks.since" := "Desde",
    "streaks.watchedToday" := "¡Buen trabajo! ¡Has visto una película hoy!",
    "streaks.keepTheStreak" := "¡Ve una película hoy para mantener tu racha!",
    "streaks.startNewStreak" := "¡Comienza una nueva racha viendo una película hoy!",
    "streaks.milestone" := "¡Has Alcanzado un Hito!",
    "streaks.streak" := "Racha",
    "achievements.yourAchievements" := "Tus Logros",
    "achievements.recentUnlocked" := "Logros Recientes",
    "achievements.complete" := "completado",
    "achievements.unlocked" := "desbloqueados",
    "achievements.of" := "de",
    "achievements.all" := "Todos",
    "achievements.milestones" := "Hitos",
    "achievements.collections" := "Colecciones",
    "achievements.streaks" := "Rachas",
    "achievements.special" := "Especial",
    "achievements.level" := "Nivel",
    "achievements.unlockedOn" := "Desbloqueado el",
    "achievements.viewRecommendations" := "Ver Recomendaciones por Logros",
    "recommendations.achievementRecommendations" := "Recomendaciones por Logros",
    "recommendations.moviesThatHelp" := "Películas que te ayudarán a desbloquear logros",
    "recommendations.noAchievements" := "No Hay Recomendaciones Disponibles",
    "recommendations.watchMoreMovies" := "Mira más películas para comenzar a recibir recomendaciones personalizadas",
    "recommendations.browseMovies" := "Explorar Películas",
    "recommendations.viewDetails" := "Ver Detalles",
    "recommendations.unlocks" := "Desbloquea",
    "recommendations.personalizedForAchievements" := "Películas recomendadas basadas en tu progreso de logros",
    "recommendations.back" := "Atrás",
    "recommendations.browseAllMovies" := "Ver Todas las Películas",
    "recommendations.yourProgress" := "Tu Progreso de Logros"
  ]
  function Translations(l: Language): map<string, string> {
    match l
    case En => English
    case Es => Spanish
  }

  // ---------------------------------------------------------------------------
  // t

  /** `translationObj[key] || key`: the entry, or the key itself when the
      table has no entry or only an empty one. */
  function Translation(table: map<string, string>, key: string): (r: string)
    ensures r == key || (key in table && r == table[key] != "")
    ensures key in table && table[key] != "" ==> r == table[key]
  {
    if key in table && table[key] != "" then table[key] else key
  }

  /** A parameter value: a string, or a number (integers only). */
  datatype ParamValue = Text(text: string) | Number(n: int)

  /** `String(value)`. */
  function Stringify(v: ParamValue): string {
    match v
    case Text(s) => s
    case Number(n) => IntToString(n)
  }

  /** One parameter, in the order `Object.entries` lists them. */
  datatype Param = Param(name: string, value: ParamValue)

  /** The text `{name}` that a parameter replaces. */
  function Placeholder(name: string): (p: string)
    ensures |p| == |name| + 2 && p[0] == '{' && p[|p| - 1] == '}'
  {
    "{" + name + "}"
  }

  /** The `reduce`: each parameter in turn replaces every occurrence of its
      placeholder in the text produced so far. */
  function Substitute(s: string, params: seq<Param>): (r: string)
    ensures (forall p :: p in params ==> !Includes(s, Placeholder(p.name))) ==> r == s
    decreases |params|
  {
    if params == [] then s
    else
      var first := params[0];
      var replaced := ReplaceAll(s, Placeholder(first.name), Stringify(first.value));
      assert forall p :: p in params[1..] ==> p in params;
      if Includes(s, Placeholder(first.name)) then Substitute(replaced, params[1..])
      else
        ReplaceAllAbsent(s, Placeholder(first.name), Stringify(first.value));
        Substitute(replaced, params[1..])
  }

  /** `t(key, params)` with the current language's table. */
  function T(table: map<string, string>, key: string, params: Option<seq<Param>>): (r: string)
    ensures params.None? ==> r == Translation(table, key)
  {
    var translation := Translation(table, key);
    if params.Some? then Substitute(translation, params.value) else translation
  }

  /** A key missing from the language's table comes back unchanged when no
      parameters are given. */
  lemma UnknownKeyIsItsOwnTranslation(table: map<string, string>, key: string)
    requires key !in table
    ensures T(table, key, None) == key
    ensures T(table, key, Some([])) == key
  {
  }

  /** The parameters are applied left to right: the last one is applied to
      the result of all the others. */
  lemma {:induction false} SubstituteAppend(s: string, params: seq<Param>, p: Param)
    ensures Substitute(s, params + [p]) == ReplaceAll(Substitute(s, params), Placeholder(p.name), Stringify(p.value))
    decreases |params|
  {
    if params == [] {
      assert [] + [p] == [p];
    } else {
      assert (params + [p])[1..] == params[1..] + [p];
      SubstituteAppend(ReplaceAll(s, Placeholder(params[0].name), Stringify(params[0].value)), params[1..], p);
    }
  }

  /** One parameter replaces the pieces' separators: the text split at every
      occurrence of the placeholder, joined with the value. */
  lemma SubstituteOne(s: string, p: Param)
    ensures Substitute(s, [p]) == Join(Split(s, Placeholder(p.name)), Stringify(p.value))
  {
    ReplaceAllIsSplitJoin(s, Placeholder(p.name), Stringify(p.value));
  }

  /** A pattern that does not occur leaves the text as it is. */
  lemma ReplaceAllAbsent(s: string, pat: string, rep: string)
    requires |pat| > 0 && !Includes(s, pat)
    ensures ReplaceAll(s, pat, rep) == s
  {
  }

  // ---------------------------------------------------------------------------
  // The initial language and the provider

  /** `getInitialLanguage`: a saved "en" or "es" wins; otherwise Spanish when
      the browser language's primary subtag is "es"; otherwise English. */
  function InitialLanguage(store: Store, browserLanguage: string): (r: Language)
    ensures LanguageKey in store && store[LanguageKey] == Raw("es") ==> r == Es
    ensures LanguageKey in store && store[LanguageKey] == Raw("en") ==> r == En
    ensures !(LanguageKey in store && store[LanguageKey] in {Raw("en"), Raw("es")}) ==>
      (r == Es <==> Split(browserLanguage, "-")[0] == "es")
  {
    if LanguageKey in store && store[LanguageKey].Raw? && FromCode(store[LanguageKey].text).Some? then
      FromCode(store[LanguageKey].text).value
    else if Split(browserLanguage, "-")[0] == "es" then Es
    else En
  }

  /** `LanguageProvider`: the current language, whether the provider has
      mounted, and the storage the choice is saved to. */
  class LanguageProvider {
    var language: Language
    var isClient: bool
    var store: Store

    /** Before mounting: English, nothing read yet. */
    constructor (saved: Store)
      ensures language == En && !isClient && store == saved
    {
      language := En;
      isClient := false;
      store := saved;
    }

    /** The effect run on mount: the initial language is chosen. */
    method Mount(browserLanguage: string)
      modifies this
      ensures isClient && store == old(store)
      ensures language == InitialLanguage(old(store), browserLanguage)
    {
      isClient := true;
      language := InitialLanguage(store, browserLanguage);
    }

    /** `changeLanguage`: always switches; saves the choice only once mounted. */
    method ChangeLanguage(newLanguage: Language)
      modifies this
      ensures language == newLanguage && isClient == old(isClient)
      ensures old(isClient) ==> store == old(store)[LanguageKey := Raw(Code(newLanguage))]
      ensures !old(isClient) ==> store == old(store)
    {
      language := newLanguage;
      if isClient {
        store := store[LanguageKey := Raw(Code(newLanguage))];
      }
    }

    /** `t`, in the current language. */
    function Translate(key: string, params: Option<seq<Param>>): (r: string)
      reads this
      ensures params.None? ==> r == Translation(Translations(language), key)
    {
      T(Translations(language), key, params)
    }
  }

  /** A saved choice is the one found on the next mount, whatever the
      browser's language. */
  lemma SavedLanguageIsRestored(store: Store, l: Language, browserLanguage: string)
    ensures InitialLanguage(store[LanguageKey := Raw(Code(l))], browserLanguage) == l
  {
  }
}

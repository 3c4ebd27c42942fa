/** The reply logic of PortfolioChatbot: ten keyword rules tried in a fixed
    order over the lower-cased input, reply pools picked from at random, and
    five fixed replies. */
module Responder {
  import opened JsText

  /** The topic a message is classified under; one per rule, plus Default. */
  datatype Category =
    | Greeting | About | Projects | Skills | Contact
    | Experience | TechStack | Availability | Rate | Location
    | Default

  /** A rule fires when any of its triggers is a substring of the input. */
  datatype Rule = Rule(triggers: seq<string>, category: Category)

  /** The rules in the order `generateResponse` tries them. */
  const Rules: seq<Rule> := [
    Rule(["hello", "hi", "hey", "greetings"], Greeting),
    Rule(["about", "who are you", "tell me about yourself"], About),
    Rule(["project", "work", "portfolio", "build"], Projects),
    Rule(["skill", "technology", "tech", "programming", "code"], Skills),
    Rule(["contact", "email", "reach", "get in touch", "hire"], Contact),
    Rule(["experience", "years", "background"], Experience),
    Rule(["docker", "kubernetes", "jenkins", "terraform"], TechStack),
    Rule(["available", "freelance", "hire", "work"], Availability),
    Rule(["rate", "price", "cost", "budget"], Rate),
    Rule(["location", "where", "timezone"], Location)
  ]

  // ---------------------------------------------------------------------
  // Reply pools (the `responses` object built by the constructor)

  const GreetingsPool: seq<string> := [
    "Hello! I'm your AI assistant. How can I help you today?",
    "Hi there! Welcome to the portfolio. What would you like to know?",
    "Greetings! I'm here to help you explore this portfolio."
  ]

  const AboutPool: seq<string> := [
    "I'm Shivam Patil, a DevOps Engineer focused on automation, CI/CD, and cloud infrastructure.",
    "I have 5+ years of experience building and maintaining scalable infrastructure using tools like Jenkins, GitHub Actions, Docker, Kubernetes, AWS, and Azure.",
    "I specialize in container orchestration with Kubernetes, infrastructure as code with Terraform, and robust CI/CD pipelines."
  ]

  const ProjectsPool: seq<string> := [
    "I've worked on various projects including CI/CD pipeline automation, infrastructure as code, and monitoring solutions.",
    "My recent projects include automated deployment pipelines and cloud infrastructure provisioning.",
    "I've completed 50+ projects ranging from simple automation scripts to complex enterprise infrastructure setups."
  ]

  const SkillsPool: seq<string> := [
    "My technical skills include Docker, Kubernetes, Jenkins, AWS, Terraform, Ansible, and many more.",
    "I'm proficient in container orchestration, CI/CD pipelines, and cloud infrastructure management.",
    "I work with modern DevOps tools like Docker, Kubernetes, Jenkins, AWS, and various monitoring solutions."
  ]

  const ContactPool: seq<string> := [
    "You can reach me via the contact form or connect on LinkedIn/GitHub from the footer.",
    "Prefer email? Share your details in the contact form and I'll get back to you.",
    "I'm open to new opportunities and collaborations. Let's connect!"
  ]

  const DefaultPool: seq<string> := [
    "That's an interesting question! Could you tell me more about what you're looking for?",
    "I'm not sure I understand. Could you rephrase that or ask about my projects, skills, or experience?",
    "I'd be happy to help! You can ask me about my work, skills, projects, or how to get in touch."
  ]

  /** The `responses` object, keyed by the names the source uses. */
  const Responses: map<string, seq<string>> := map[
    "greetings" := GreetingsPool,
    "about" := AboutPool,
    "projects" := ProjectsPool,
    "skills" := SkillsPool,
    "contact" := ContactPool,
    "default" := DefaultPool
  ]

  // The five replies that are fixed strings rather than pools.

  const ExperienceReply: string :=
    "I have over 5 years of experience in DevOps engineering, working with various automation tools and cloud platforms. I've completed 50+ infrastructure projects and worked with clients from different industries."
  const TechStackReply: string :=
    "I'm proficient in Docker for containerization, Kubernetes for orchestration, Jenkins for CI/CD pipelines, and Terraform for infrastructure as code. I also work with Ansible, AWS, and various monitoring tools."
  const AvailabilityReply: string :=
    "I'm currently available for freelance projects and full-time opportunities. I'm particularly interested in challenging projects that involve infrastructure automation, CI/CD optimization, and cloud migration."
  const RateReply: string :=
    "My rates vary depending on the project scope and complexity. I'm happy to discuss your specific needs and provide a detailed quote. Feel free to reach out with your project requirements!"
  const LocationReply: string :=
    "I'm based in San Francisco, CA, but I work with clients globally. I'm flexible with time zones and can accommodate different schedules for meetings and collaboration."

  /** Every text the widget can answer with: the `responses` object and the
      five fixed replies. The reasoning below holds for any texts of this
      shape; `SiteTexts` holds the site's own wording. */
  datatype ReplyTexts = ReplyTexts(
    responses: map<string, seq<string>>,
    experience: string, techStack: string, availability: string, rate: string, location: string)

  /** The names `generateResponse` asks `getRandomResponse` for. */
  const PoolNames: set<string> := {"greetings", "about", "projects", "skills", "contact", "default"}

  /** Every name it asks for has a pool, and every pool is non-empty. */
  predicate ValidTexts(t: ReplyTexts) {
    PoolNames <= t.responses.Keys &&
    forall name :: name in t.responses ==> |t.responses[name]| > 0
  }

  const SiteTexts: ReplyTexts :=
    ReplyTexts(Responses, ExperienceReply, TechStackReply, AvailabilityReply, RateReply, LocationReply)

  /** The site's texts have the shape the reply logic relies on. */
  lemma SiteTextsValid()
    ensures ValidTexts(SiteTexts)
  {
  }

  // ---------------------------------------------------------------------
  // Random pick

  /** A value Math.random() may return. */
  predicate IsRoll(roll: real) {
    0.0 <= roll < 1.0
  }

  /** Math.floor(roll * n): the index a roll selects among `n` candidates;
      it is always a valid index. */
  function PickIndex(roll: real, n: nat): (i: nat)
    requires IsRoll(roll) && n > 0
    ensures i < n
  {
    var x := roll * n as real;
    assert x < n as real by {
      assert n as real - x == (1.0 - roll) * n as real;
    }
    x.Floor
  }

  /** Every candidate is reachable: the roll i/n selects index i. */
  lemma PickCovers(n: nat, i: nat)
    requires i < n
    ensures IsRoll(i as real / n as real)
    ensures PickIndex(i as real / n as real, n) == i
  {
    assert (i as real / n as real) * n as real == i as real;
  }

  /** getRandomResponse: an element of the named pool, or of the default pool
      for a name that has none; every pool is non-empty, so a pick exists. */
  function GetRandomResponse(t: ReplyTexts, category: string, roll: real): (r: string)
    requires ValidTexts(t) && IsRoll(roll)
    ensures category in t.responses ==> r in t.responses[category]
    ensures category !in t.responses ==> r in t.responses["default"]
  {
    var pool := if category in t.responses then t.responses[category] else t.responses["default"];
    pool[PickIndex(roll, |pool|)]
  }

  // ---------------------------------------------------------------------
  // Classification

  /** containsAny: some keyword occurs in `text`. */
  function ContainsAny(text: string, keywords: seq<string>): (r: bool)
    ensures r <==> exists i :: 0 <= i < |keywords| && Includes(text, keywords[i])
  {
    if keywords == [] then false
    else Includes(text, keywords[0]) || ContainsAny(text, keywords[1..])
  }

  /** `containsAny` holds exactly when one of the keywords is in `text`. */
  lemma {:induction false} ContainsAnyIff(text: string, keywords: seq<string>)
    ensures ContainsAny(text, keywords) <==> exists k :: k in keywords && Includes(text, k)
  {
    if keywords != [] {
      ContainsAnyIff(text, keywords[1..]);
      assert keywords[0] in keywords;
      assert forall k :: k in keywords && k != keywords[0] ==> k in keywords[1..];
      assert forall k :: k in keywords[1..] ==> k in keywords;
    }
  }

  /** No rule before index `n` fires on `text`. */
  predicate NoneBefore(text: string, n: nat)
    requires n <= |Rules|
  {
    forall j :: 0 <= j < n ==> !ContainsAny(text, Rules[j].triggers)
  }

  /** The category of the first rule of `rules`, from index `from` on, that
      fires; Default when none does. */
  function FirstMatch(rules: seq<Rule>, text: string, from: nat): (c: Category)
    requires from <= |rules|
    decreases |rules| - from
  {
    if from == |rules| then Default
    else if ContainsAny(text, rules[from].triggers) then rules[from].category
    else FirstMatch(rules, text, from + 1)
  }

  /** The category `generateResponse` answers from, given the lower-cased text. */
  function Classify(text: string): (c: Category)
    ensures c == Greeting <==> ContainsAny(text, Rules[0].triggers)
  {
    FirstMatch(Rules, text, 0)
  }

  /** The reply for a category: a pick from its pool or its fixed string. */
  function Reply(t: ReplyTexts, c: Category, roll: real): (r: string)
    requires ValidTexts(t) && IsRoll(roll)
    ensures r in Replies(t, c)
  {
    match c
    case Greeting => GetRandomResponse(t, "greetings", roll)
    case About => GetRandomResponse(t, "about", roll)
    case Projects => GetRandomResponse(t, "projects", roll)
    case Skills => GetRandomResponse(t, "skills", roll)
    case Contact => GetRandomResponse(t, "contact", roll)
    case Experience => t.experience
    case TechStack => t.techStack
    case Availability => t.availability
    case Rate => t.rate
    case Location => t.location
    case Default => GetRandomResponse(t, "default", roll)
  }

  /** The replies a category can produce. */
  function Replies(t: ReplyTexts, c: Category): seq<string>
    requires ValidTexts(t)
  {
    match c
    case Greeting => t.responses["greetings"]
    case About => t.responses["about"]
    case Projects => t.responses["projects"]
    case Skills => t.responses["skills"]
    case Contact => t.responses["contact"]
    case Experience => [t.experience]
    case TechStack => [t.techStack]
    case Availability => [t.availability]
    case Rate => [t.rate]
    case Location => [t.location]
    case Default => t.responses["default"]
  }

  /** generateResponse: the reply always comes from the replies of the
      category the lower-cased message is classified under. */
  function GenerateResponse(t: ReplyTexts, userMessage: string, roll: real): (r: string)
    requires ValidTexts(t) && IsRoll(roll)
    ensures r in Replies(t, Classify(ToLowerCase(userMessage)))
  {
    Reply(t, Classify(ToLowerCase(userMessage)), roll)
  }
}

/**
 * The study-guide knowledge base of ChatbotService.ts and its three lookups:
 * subject catalog, topic guide and subtopic guide, all keyed by the
 * normalised name so that accents, case and punctuation do not matter.
 *
 * The knowledge base is a plain JavaScript object, so `kb[key]` also sees
 * the properties every object inherits.  `CatalogAsWritten` models that
 * lookup as it is written; `MateriaTopicCatalog` is the own-key lookup the
 * code evidently intends and the rest of the model uses.
 */
module Knowledge {
  import opened Text
  import opened Records

  datatype SubtopicGuide = SubtopicGuide(
    name: string, summary: string, keyPoints: seq<string>,
    practiceIdeas: seq<string>, resources: seq<string>)

  /** `resources` is [] where the guide has none. */
  datatype TopicGuide = TopicGuide(
    name: string, summary: string, objectives: seq<string>, studyTips: seq<string>,
    subtopics: seq<SubtopicGuide>, resources: seq<string>)

  /** The guide to Integrales definidas. */
  const DefiniteIntegrals: TopicGuide := TopicGuide(
    "Integrales definidas",
    "Repasa el concepto de integral definida, su interpretacion geometrica y la relacion con el teorema fundamental del calculo.",
    [
      "Recordar el significado geometrico del area firmada",
      "Aplicar el teorema fundamental del calculo en ejemplos guiados",
      "Reconocer cuando una integral definida representa acumulacion o variacion neta"],
    [
      "Antes de integrar, verifica los limites y el comportamiento de la funcion en el intervalo",
      "Bosqueja la grafica rapida para entender cambios de signo",
      "Justifica cada paso del procedimiento indicando la regla utilizada"],
    [
      SubtopicGuide(
        "Metodo de sustitucion",
        "Usa cambios de variable para simplificar integrales con funciones compuestas.",
        [
          "Identifica una expresion interna como candidata a la sustitucion",
          "Recuerda transformar los limites cuando cambias de variable",
          "Comprueba tu resultado derivando la antiderivada obtenida"],
        [
          "Resuelve tres integrales con sustitucion lineal",
          "Evalua una integral que requiera sustitucion trigonometrica",
          "Contrasta tus respuestas con un software CAS o calculadora graficadora"],
        [
          "https://www.khanacademy.org/math/integral-calculus/indefinite-integrals/substitution-u-substitution/v/indefinite-integrals-with-u-substitution-getting-ready-to-substitute",
          "https://mathispower4u.com/integration.php"]),
      SubtopicGuide(
        "Regla de partes",
        "Aplica integracion por partes cuando el integrando es el producto de dos funciones.",
        [
          "Utiliza el acronimo LIATE para elegir u y dv",
          "Documenta cada iteracion si debes aplicar la tecnica mas de una vez",
          "Combina la regla de partes con sustitucion si el integrando lo requiere"],
        [
          "Integra productos polinomio por exponencial",
          "Analiza un problema fisico donde aparezca trabajo o energia acumulada",
          "Construye una tabla de reduccion para integrales de senos y cosenos a diferentes potencias"],
        [
          "https://tutorial.math.lamar.edu/Classes/CalcII/IntegrationByParts.aspx",
          "https://pomodoromarathon.com/blog/calculo/guia-integracion-por-partes"])],
    [
      "https://www.geogebra.org/m/vpfk28my"])

  /** The guide to Aplicaciones de integrales. */
  const IntegralApplications: TopicGuide := TopicGuide(
    "Aplicaciones de integrales",
    "Relaciona la integral con calculos de area, volumen y trabajo fisico.",
    [
      "Configurar integrales para volumenes de solidos de revolucion",
      "Distinguir entre metodos de discos, anillos y cascarones",
      "Interpretar integrales como trabajo mecanico o masa acumulada"],
    [
      "Empieza con un diagrama claro de la region a rotar",
      "Escribe la expresion diferencial antes de integrar",
      "Verifica las unidades de tu resultado final"],
    [
      SubtopicGuide(
        "Volumen por discos",
        "Usa discos o anillos para modelar solidos de revolucion alrededor de un eje.",
        [
          "Determina si el eje de rotacion requiere anillos o discos simples",
          "Formula el radio en funcion de la variable de integracion",
          "Comprueba si necesitas dividir la integral por cambios de dominio"],
        [
          "Calcula el volumen generado por la region entre y = x^2 y y = 4 al rotar sobre el eje x",
          "Resuelve un ejercicio donde el eje de rotacion sea una recta horizontal desplazada",
          "Compara resultados obtenidos con discos versus cascarones en un mismo problema"],
        [
          "https://www.youtube.com/watch?v=Zb6p3nQf8iM"]),
      SubtopicGuide(
        "Trabajo y energia",
        "Traduce situaciones fisicas (bombear liquidos, comprimir resortes) en integrales definidas.",
        [
          "Expresa la fuerza diferencial en funcion de la posicion",
          "Define claramente los limites segun el desplazamiento real",
          "Usa unidades coherentes para fuerza, distancia y trabajo"],
        [
          "Modela el trabajo necesario para comprimir un resorte con ley de Hooke",
          "Calcula el trabajo para bombear agua de un tanque con seccion variable",
          "Explica como afecta la densidad del fluido al resultado final"],
        [
          "https://www.khanacademy.org/science/physics/work-and-energy"])],
    [
      "https://www.khanacademy.org/math/integral-calculus/applications-integrals"])

  /** The guide to Principios SOLID. */
  const SolidPrinciples: TopicGuide := TopicGuide(
    "Principios SOLID",
    "Profundiza en los principios SOLID para crear software mantenible y extensible.",
    [
      "Reconocer cada principio SOLID y su beneficio practico",
      "Identificar olores de codigo que violan SOLID",
      "Refactorizar ejemplos sencillos aplicando SOLID"],
    [
      "Analiza clases reales de tus proyectos y evalua si cumplen SOLID",
      "Comparte tus refactorizaciones con un companero para recibir retroalimentacion",
      "Documenta antes y despues de cada cambio para ver el impacto"],
    [
      SubtopicGuide(
        "Responsabilidad unica",
        "Cada clase debe enfocarse en una sola responsabilidad.",
        [
          "Detecta clases que gestionan multiples procesos",
          "Extrae servicios o utilidades especializados",
          "Usa nombres claros que describan la responsabilidad principal"],
        [
          "Divide una clase muy grande en componentes mas pequenos",
          "Escribe pruebas unitarias que fallen antes de refactorizar",
          "Revisa commits para asegurar que cada cambio aborda una sola responsabilidad"],
        [
          "https://martinfowler.com/bliki/SingleResponsibilityPrinciple.html"]),
      SubtopicGuide(
        "Inversion de dependencias",
        "Asegura que las dependencias apunten a abstracciones y no a clases concretas.",
        [
          "Declara interfaces para describir comportamientos clave",
          "Inyecta dependencias mediante constructores o contenedores IoC",
          "Evita crear instancias dentro de componentes de alto nivel"],
        [
          "Implementa un servicio usando interfaces y un contenedor de inyeccion",
          "Configura pruebas con dobles (mocks) para verificar interacciones",
          "Dibuja un diagrama de dependencias antes y despues de aplicar el principio"],
        [
          "https://www.youtube.com/watch?v=QoO0fGur6kA"])],
    [
      "https://solidprinciples.com/"])

  /** The guide to Patrones de diseno basicos. */
  const BasicDesignPatterns: TopicGuide := TopicGuide(
    "Patrones de diseno basicos",
    "Introduce patrones de creacion y estructura para resolver problemas recurrentes.",
    [
      "Relacionar problemas comunes con patrones conocidos",
      "Implementar Factory Method y Singleton en TypeScript o JavaScript",
      "Evaluar ventajas y desventajas de cada patron"],
    [
      "Compara implementaciones en diferentes lenguajes",
      "Documenta que problema resuelve cada patron antes de codificarlo",
      "Practica escribiendo diagramas simples para reforzar la comprension"],
    [
      SubtopicGuide(
        "Factory Method",
        "Centraliza la creacion de objetos para desacoplar clientes de implementaciones concretas.",
        [
          "Define una interfaz creadora con un metodo fabrica",
          "Permite que subclases decidan que objeto concreto instanciar",
          "Asegura que los clientes dependan de la interfaz y no de clases especificas"],
        [
          "Crea una fabrica para generar reportes en PDF y CSV",
          "Integra el patron con inyeccion de dependencias",
          "Describe como probarias la fabrica usando dobles"],
        [
          "https://refactoring.guru/design-patterns/factory-method"]),
      SubtopicGuide(
        "Singleton",
        "Restringe la creacion de instancias a un unico objeto compartido.",
        [
          "Controla el acceso al constructor",
          "Expone un metodo estatico para obtener la instancia",
          "Considera las implicaciones en pruebas y concurrencia"],
        [
          "Implementa un gestor de configuraciones como singleton",
          "Analiza los riesgos de usar singleton en ambientes concurrentes",
          "Evalua cuando reemplazar un singleton por inyeccion de dependencias"],
        [
          "https://refactoring.guru/design-patterns/singleton"])],
    [
      "https://refactoring.guru/design-patterns/catalog"])

  /** The guides under "calculo integral". */
  const IntegralCalculus: seq<TopicGuide> := [DefiniteIntegrals, IntegralApplications]

  /** The guides under "programacion orientada a objetos". */
  const ObjectOrientedProgramming: seq<TopicGuide> := [SolidPrinciples, BasicDesignPatterns]

  /** A knowledge base: topic guides keyed by normalised subject name. */
  type KnowledgeMap = map<string, seq<TopicGuide>>

  /** `syllabusKnowledgeBase` */
  const KnowledgeBase: KnowledgeMap := map[
    "calculo integral" := IntegralCalculus,
    "programacion orientada a objetos" := ObjectOrientedProgramming]

  /** The properties every plain JavaScript object inherits from `Object.prototype`. */
  const InheritedProperties: set<string> := {
    "constructor", "__proto__", "hasOwnProperty", "isPrototypeOf",
    "propertyIsEnumerable", "toLocaleString", "toString", "valueOf",
    "__defineGetter__", "__defineSetter__", "__lookupGetter__", "__lookupSetter__"}

  // ---------------------------------------------------------------------
  // The catalog lookup as written: `syllabusKnowledgeBase[key] || []`
  // ---------------------------------------------------------------------

  /** The value of `syllabusKnowledgeBase[key] || []`: a topic list, or an inherited member. */
  datatype CatalogValue = Topics(topics: seq<TopicGuide>) | Inherited(property: string)

  /** What calling a lookup does: return a value, or throw a `TypeError`. */
  datatype Outcome<T> = Returns(value: T) | TypeError

  function CatalogAsWritten(kb: KnowledgeMap, materia: string): (r: CatalogValue)
    ensures r.Inherited? ==> r.property in InheritedProperties && r.property !in kb
  {
    var key := NormalizeText(materia);
    if key in kb then Topics(kb[key])
    else if key in InheritedProperties then Inherited(key)
    else Topics([])
  }

  /**
   * `getTopicStudyGuide` as written: on an inherited member (a function,
   * not an array) `topics.find` is not a function and the call throws.
   */
  function TopicStudyGuideAsWritten(kb: KnowledgeMap, materia: string, topic: string): Outcome<Option<TopicGuide>> {
    match CatalogAsWritten(kb, materia)
    case Topics(ts) => Returns(FindFirst(ts, (t: TopicGuide) => NormalizeText(t.name) == NormalizeText(topic)))
    case Inherited(_) => TypeError
  }

  predicate InNormalForm(s: string) {
    forall i :: 0 <= i < |s| ==> Normal(s[i])
  }

  /** Every inherited property but `constructor` has an upper-case letter or an underscore. */
  lemma InheritedNameNotNormal(p: string)
    requires p in InheritedProperties && p != "constructor"
    ensures !InNormalForm(p)
  {
    if p == "__proto__" || p == "__defineGetter__" || p == "__defineSetter__"
       || p == "__lookupGetter__" || p == "__lookupSetter__" {
      assert !Normal(p[0]);
    } else if p == "hasOwnProperty" {
      assert !Normal(p[3]);
    } else if p == "isPrototypeOf" || p == "toLocaleString" || p == "toString" {
      assert !Normal(p[2]);
    } else if p == "propertyIsEnumerable" {
      assert !Normal(p[8]);
    } else {
      assert p == "valueOf";
      assert !Normal(p[5]);
    }
  }

  /**
   * The normalised name can only hit the inherited member `constructor`:
   * the other inherited names are not in normal form.
   */
  lemma OnlyConstructorIsReachable(kb: KnowledgeMap, materia: string)
    requires CatalogAsWritten(kb, materia).Inherited?
    ensures NormalizeText(materia) == "constructor"
  {
    var key := NormalizeText(materia);
    NormalizeOutput(materia);
    assert InNormalForm(key);
    if key != "constructor" {
      InheritedNameNotNormal(key);
    }
  }

  lemma ConstructorNormalizes()
    ensures NormalizeText("Constructor") == "constructor"
  {
    assert forall i :: 0 <= i < |"Constructor"| ==> IsLatin("Constructor"[i]);
    assert LowerCase(Bases("Constructor")) == "constructor";
    NormalizeLatinTo("Constructor", "constructor");
  }

  /** Any subject whose name normalises to "constructor" makes every topic lookup throw. */
  lemma ConstructorKeyThrows(kb: KnowledgeMap, materia: string, topic: string)
    requires NormalizeText(materia) == "constructor" && "constructor" !in kb
    ensures TopicStudyGuideAsWritten(kb, materia, topic) == TypeError
  {
  }

  /** A subject named "Constructor" makes every topic lookup throw. */
  lemma ConstructorLookupThrows(topic: string)
    ensures TopicStudyGuideAsWritten(KnowledgeBase, "Constructor", topic) == TypeError
  {
    ConstructorNormalizes();
    ConstructorKeyThrows(KnowledgeBase, "Constructor", topic);
  }

  // ---------------------------------------------------------------------
  // The lookups on the knowledge base's own keys
  // ---------------------------------------------------------------------

  /** `getMateriaTopicCatalog` on own keys only: unknown subjects have no topics. */
  function MateriaTopicCatalog(kb: KnowledgeMap, materia: string): (r: seq<TopicGuide>)
    ensures r != [] ==> NormalizeText(materia) in kb
  {
    var key := NormalizeText(materia);
    if key in kb then kb[key] else []
  }

  /** Off the one inherited name, the intended lookup agrees with the written one. */
  lemma CatalogAgreesAsWritten(kb: KnowledgeMap, materia: string, topic: string)
    requires NormalizeText(materia) != "constructor"
    ensures CatalogAsWritten(kb, materia) == Topics(MateriaTopicCatalog(kb, materia))
    ensures TopicStudyGuideAsWritten(kb, materia, topic) == Returns(TopicStudyGuide(kb, materia, topic))
  {
    if CatalogAsWritten(kb, materia).Inherited? {
      OnlyConstructorIsReachable(kb, materia);
    }
  }

  /** The first topic of `ts` whose normalised name is that of `topic`. */
  function TopicIn(ts: seq<TopicGuide>, topic: string): (r: Option<TopicGuide>)
    ensures r.Some? ==> r.value in ts && NormalizeText(r.value.name) == NormalizeText(topic)
    ensures r.None? <==> forall t :: t in ts ==> NormalizeText(t.name) != NormalizeText(topic)
  {
    FindFirst(ts, (t: TopicGuide) => NormalizeText(t.name) == NormalizeText(topic))
  }

  /** The topic's guide, then its first subtopic whose normalised name is that of `subtopic`. */
  function SubtopicIn(ts: seq<TopicGuide>, topic: string, subtopic: string): (r: Option<(TopicGuide, SubtopicGuide)>)
    ensures r.Some? ==> TopicIn(ts, topic) == Some(r.value.0)
                        && r.value.1 in r.value.0.subtopics
                        && NormalizeText(r.value.1.name) == NormalizeText(subtopic)
    ensures r.None? <==> TopicIn(ts, topic).None?
                         || forall s :: s in TopicIn(ts, topic).value.subtopics ==>
                              NormalizeText(s.name) != NormalizeText(subtopic)
  {
    match TopicIn(ts, topic)
    case None => None
    case Some(t) =>
      match FindFirst(t.subtopics, (s: SubtopicGuide) => NormalizeText(s.name) == NormalizeText(subtopic))
      case None => None
      case Some(s) => Some((t, s))
  }

  /** `getTopicStudyGuide` */
  function TopicStudyGuide(kb: KnowledgeMap, materia: string, topic: string): Option<TopicGuide> {
    TopicIn(MateriaTopicCatalog(kb, materia), topic)
  }

  /** `getSubtopicStudyGuide` */
  function SubtopicStudyGuide(kb: KnowledgeMap, materia: string, topic: string, subtopic: string)
    : Option<(TopicGuide, SubtopicGuide)>
  {
    SubtopicIn(MateriaTopicCatalog(kb, materia), topic, subtopic)
  }

  /** The lookups see a name only through its normal form. */
  lemma LookupsRespectEquivalence(ts: seq<TopicGuide>, t1: string, t2: string, s1: string, s2: string)
    requires NormalizeText(t1) == NormalizeText(t2)
    requires NormalizeText(s1) == NormalizeText(s2)
    ensures TopicIn(ts, t1) == TopicIn(ts, t2)
    ensures SubtopicIn(ts, t1, s1) == SubtopicIn(ts, t2, s2)
  {
    assert ((t: TopicGuide) => NormalizeText(t.name) == NormalizeText(t1))
        == ((t: TopicGuide) => NormalizeText(t.name) == NormalizeText(t2));
    assert ((s: SubtopicGuide) => NormalizeText(s.name) == NormalizeText(s1))
        == ((s: SubtopicGuide) => NormalizeText(s.name) == NormalizeText(s2));
  }

  /** The guide lookup finds the first topic and subtopic whose names match. */
  lemma SubtopicGuideAt(ts: seq<TopicGuide>, topic: string, subtopic: string, k: int, j: int)
    requires 0 <= k < |ts|
    requires NormalizeText(ts[k].name) == NormalizeText(topic)
    requires forall i :: 0 <= i < k ==> NormalizeText(ts[i].name) != NormalizeText(topic)
    requires 0 <= j < |ts[k].subtopics|
    requires NormalizeText(ts[k].subtopics[j].name) == NormalizeText(subtopic)
    requires forall i :: 0 <= i < j ==> NormalizeText(ts[k].subtopics[i].name) != NormalizeText(subtopic)
    ensures SubtopicIn(ts, topic, subtopic) == Some((ts[k], ts[k].subtopics[j]))
  {
    FindFirstAt(ts, (t: TopicGuide) => NormalizeText(t.name) == NormalizeText(topic), k);
    FindFirstAt(ts[k].subtopics, (s: SubtopicGuide) => NormalizeText(s.name) == NormalizeText(subtopic), j);
  }

  /** Written with accents and capitals, the calculus subject still finds its first guide. */
  lemma CalculusSubstitutionGuide()
    ensures SubtopicStudyGuide(KnowledgeBase, "Cálculo Integral", "Integrales definidas", "Método de sustitución")
         == Some((DefiniteIntegrals, DefiniteIntegrals.subtopics[0]))
  {
    CalculusCatalog();
    CalculusSubstitutionIn();
  }

  /** Inside the calculus catalog, the accented subtopic name finds the substitution guide. */
  lemma CalculusSubstitutionIn()
    ensures SubtopicIn(IntegralCalculus, "Integrales definidas", "Método de sustitución")
         == Some((DefiniteIntegrals, DefiniteIntegrals.subtopics[0]))
  {
    CalculusTopic();
    SubstitutionAccented();
    SubstitutionPlain();
    SubtopicGuideAt(IntegralCalculus, "Integrales definidas", "Método de sustitución", 0, 0);
  }

  lemma CalculusCatalog()
    ensures MateriaTopicCatalog(KnowledgeBase, "Cálculo Integral") == IntegralCalculus
  {
    CalculusSubject();
  }

  lemma CalculusSubject()
    ensures NormalizeText("Cálculo Integral") == "calculo integral"
  {
    CalculusSubjectChars();
    NormalizeLatinTo("Cálculo Integral", "calculo integral");
  }

  lemma CalculusSubjectChars()
    ensures forall i :: 0 <= i < |"Cálculo Integral"| ==> IsLatin("Cálculo Integral"[i])
    ensures LowerCase(Bases("Cálculo Integral")) == "calculo integral"
  {
  }

  lemma CalculusTopic()
    ensures NormalizeText("Integrales definidas") == "integrales definidas"
  {
    CalculusTopicChars();
    NormalizeLatinTo("Integrales definidas", "integrales definidas");
  }

  lemma CalculusTopicChars()
    ensures forall i :: 0 <= i < |"Integrales definidas"| ==> IsLatin("Integrales definidas"[i])
    ensures LowerCase(Bases("Integrales definidas")) == "integrales definidas"
  {
  }

  lemma SubstitutionAccented()
    ensures NormalizeText("Método de sustitución") == "metodo de sustitucion"
  {
    SubstitutionAccentedChars();
    NormalizeLatinTo("Método de sustitución", "metodo de sustitucion");
  }

  lemma SubstitutionAccentedChars()
    ensures forall i :: 0 <= i < |"Método de sustitución"| ==> IsLatin("Método de sustitución"[i])
    ensures LowerCase(Bases("Método de sustitución")) == "metodo de sustitucion"
  {
  }

  lemma SubstitutionPlain()
    ensures NormalizeText("Metodo de sustitucion") == "metodo de sustitucion"
  {
    SubstitutionPlainChars();
    NormalizeLatinTo("Metodo de sustitucion", "metodo de sustitucion");
  }

  lemma SubstitutionPlainChars()
    ensures forall i :: 0 <= i < |"Metodo de sustitucion"| ==> IsLatin("Metodo de sustitucion"[i])
    ensures LowerCase(Bases("Metodo de sustitucion")) == "metodo de sustitucion"
  {
  }
}

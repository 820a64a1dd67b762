/** The list-template reply the bot sends back to the Messenger Platform. */
module Template {
  import opened Js

  /** The `default_action` of a list element: a web link. */
  datatype DefaultAction = DefaultAction(kind: string, url: Value, messengerExtensions: bool, webviewHeightRatio: string)

  /** One element of the list: title, subtitle, image and link. */
  datatype Element = Element(title: Value, subtitle: Value, imageUrl: Value, defaultAction: DefaultAction)

  /** A button under the list; the only kind the bot builds is a postback
      button carrying the pagination cursor. */
  datatype Button = Button(kind: string, title: string, payload: int)

  /** The `attachment.payload` object of a list template. */
  datatype Payload = Payload(templateType: string, topElementStyle: string, sharable: bool,
                             buttons: seq<Button>, elements: seq<Element>)

  /** The message object handed to the Send API: `{ attachment: { type, payload } }`. */
  datatype Reply = Reply(attachmentType: string, payload: Payload)

  /** A `web_url` default action opening in a tall webview, without messenger extensions. */
  function WebUrl(url: Value): DefaultAction {
    DefaultAction("web_url", url, false, "tall")
  }

  /** The "VIEW MORE" postback button whose payload is the cursor to resume from. */
  function ViewMore(cursor: int): Button {
    Button("postback", "VIEW MORE", cursor)
  }

  /** The fixed welcome element that opens every reply. */
  const Welcome: Element :=
    Element(Str("Ol\U{E1}, bem-vindo \U{E0} experi\U{EA}ncia Real2U."),
            Str("Escolha um dos aplicativos abaixo."),
            Str("https://www.real2u.com.br/img/index-logo-real2u@2x.png"),
            WebUrl(Str("https://www.real2u.com.br/")))

  /** A large, sharable list template. */
  predicate IsListTemplate(r: Reply) {
    && r.attachmentType == "template"
    && r.payload.templateType == "list"
    && r.payload.topElementStyle == "large"
    && r.payload.sharable
  }

  /** The reply every handler starts from: a list template holding only the
      welcome element and no buttons. Being a value, each call yields a
      fresh reply that earlier replies cannot have changed. */
  function DefaultResponse(): (r: Reply)
    ensures IsListTemplate(r)
    ensures r.payload.buttons == []
    ensures |r.payload.elements| == 1 && r.payload.elements[0] == Welcome
    ensures Truthy(r.payload.elements[0].title) && Truthy(r.payload.elements[0].defaultAction.url)
  {
    Reply("template", Payload("list", "large", true, [], [Welcome]))
  }
}
